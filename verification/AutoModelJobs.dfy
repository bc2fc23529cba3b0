/** The jobs of automatic modeling (extensions/ql-vscode/src/model-editor/auto-modeler.ts).

    The stretch of a job between two awaits is one atomic step, so the steps of several jobs, of the user and of
    the store interleave freely.  `Step` gives the effect of each step on values; the class `AutoModeler` performs
    it on the jobs and the store; the lemmas are about `Run`, all steps of all runs.

    An editor can be closed and opened again while a job of its auto-modeler still runs.  The database then has a new
    state and a new editor with an auto-modeler of its own, and the old job goes on, now with the new state. */
module AutoModelJobs {
  import opened DataExtensions
  import opened ModelingStores
  import opened Candidates
  import opened AutoModel
  import opened ExtensionPacks
  import Groups
  import opened Wrappers

  /** What a job waits for: its progress task to begin, the models for a batch, its own resumption after the batch
      went through or threw, or (with its loop over) its end. */
  datatype Phase = Waiting | Modeling | Answered | Failed | Leaving

  /** A call of `startModeling`.  `batch` is the variable of its loop.  The source does not record the rest: `missed`
      tells whether some batch got no models or the loop threw, and `begun` and `shown` are the openings of the
      database in which the loop began and in which the current batch was taken up. */
  datatype Job = Job(
    candidates: seq<Method>, size: int, cancelled: bool, phase: Phase, batch: int, missed: bool,
    begun: nat, shown: nat)

  /** Where an auto-modeler keeps a job: by package.  Auto-modelers are told apart by the opening of the database
      that made them. */
  datatype Slot = Slot(editor: nat, package: string)

  /** The jobs of all auto-modelers of a database, the state of the database unless it is closed, and how often it has
      been opened */
  datatype System = System(jobs: map<Slot, Job>, db: Option<DbState>, opening: nat)

  datatype Outcome = NoResult | Response(extensions: seq<Extension>) | Throws

  datatype Input =
    | Start(slot: Slot, methods: seq<Method>, modeled: ModeledMethods, order: UiOrder, setting: Option<int>)
    | Begin(slot: Slot)                     // the progress task of the job begins
    | Settle(slot: Slot, outcome: Outcome)  // the requests for the batch end
    | Continue(slot: Slot)                  // `modelPackage` resumes after the batch
    | Leave(slot: Slot)                     // `startModeling` resumes after `modelPackage`
    | Stop(slot: Slot)
    | StopAll(editor: nat)
    | Edit(signature: string, models: seq<ModeledMethod>)  // the user models one method
    | AddModels(added: ModeledMethods)                     // another source of models adds some
    | ReplaceAll(replacement: ModeledMethods)              // the models in the files are loaded
    | Close                                                // the database is removed from the store
    | Reopen                                               // an editor for the database is opened

  predicate Busy(j: Job) {
    j.phase in {Modeling, Answered, Failed}
  }

  /** The batch that a job works on */
  function CurrentBatch(j: Job): (batch: seq<Method>)
    ensures forall m | m in batch :: m in j.candidates
  {
    if Busy(j) && j.size > 0 && j.batch >= 0 then Batch(j.candidates, j.size, j.batch) else []
  }

  function Number(j: Job): int {
    if j.size == 0 then 0 else BatchNumber(|j.candidates|, j.size)
  }

  function AddProgress(db: Option<DbState>, signatures: set<string>): Option<DbState> {
    if db.None? then None
    else Some(db.value.(inProgressMethods := db.value.inProgressMethods + signatures))
  }

  function RemoveProgress(db: Option<DbState>, signatures: set<string>): Option<DbState> {
    if db.None? then None
    else Some(db.value.(inProgressMethods := db.value.inProgressMethods - signatures))
  }

  /** The `finally` block of `modelPackage` */
  function EndLoop(s: System, p: Slot, i: int, thrown: bool): System
    requires p in s.jobs
  {
    var j := s.jobs[p];
    System(s.jobs[p := j.(phase := Leaving, batch := i, missed := j.missed || thrown)],
           RemoveProgress(s.db, Signatures(j.candidates)), s.opening)
  }

  /** The loop of `modelPackage`, from the head of round `i` to the next await; a closed database throws. */
  function Advance(s: System, p: Slot, i: int): System
    requires p in s.jobs
  {
    var j := s.jobs[p].(phase := Modeling, batch := i, shown := s.opening);
    if i < Number(j) && !j.cancelled then
      if s.db.Some? then System(s.jobs[p := j], AddProgress(s.db, Signatures(CurrentBatch(j))), s.opening)
      else EndLoop(s, p, i, true)
    else EndLoop(s, p, i, false)
  }

  /** `addModeledMethods` and `addModifiedMethods` with the models of a response */
  function Receive(db: DbState, extensions: seq<Extension>, batch: seq<Method>): DbState {
    var methods := Filled(Loaded(extensions), batch);
    db.(modeledMethods := Merge(db.modeledMethods, methods),
        modifiedMethodSignatures := db.modifiedMethodSignatures + methods.Keys)
  }

  function Settled(s: System, p: Slot, outcome: Outcome): System
    requires p in s.jobs
  {
    var j := s.jobs[p];
    match outcome
    case NoResult => s.(jobs := s.jobs[p := j.(phase := Answered, missed := true)])
    case Throws => s.(jobs := s.jobs[p := j.(phase := Failed, missed := true)])
    case Response(extensions) =>
      if s.db.None? || !IsValidFile(extensions) then s.(jobs := s.jobs[p := j.(phase := Failed, missed := true)])
      else System(s.jobs[p := j.(phase := Answered)], Some(Receive(s.db.value, extensions, CurrentBatch(j))),
                  s.opening)
  }

  function CancelAll(jobs: map<Slot, Job>, editor: nat): map<Slot, Job> {
    map p | p in jobs :: if p.editor == editor then jobs[p].(cancelled := true) else jobs[p]
  }

  /** The job of a slot, as its loop begins in the present opening */
  function Begun(s: System, p: Slot): System
    requires p in s.jobs
  {
    s.(jobs := s.jobs[p := s.jobs[p].(begun := s.opening)])
  }

  ghost predicate Meaningful(input: Input) {
    input.Start? ==> Sorts(input.order)
  }

  ghost function NewJob(input: Input): Job
    requires input.Start? && Sorts(input.order)
  {
    Job(CandidatesOf(InUiOrder(input.methods, input.order), input.modeled), BatchSize(input.setting),
        false, Waiting, 0, false, 0, 0)
  }

  ghost function Step(s: System, input: Input): System
    requires Meaningful(input)
  {
    match input
    case Start(p, _, _, _, _) => if p in s.jobs then s else s.(jobs := s.jobs[p := NewJob(input)])
    case Begin(p) =>
      if p in s.jobs && s.jobs[p].phase == Waiting then
        if s.jobs[p].candidates == [] then s.(jobs := s.jobs[p := s.jobs[p].(phase := Leaving)])
        else Advance(Begun(s, p), p, 0)
      else s
    case Settle(p, outcome) =>
      if p in s.jobs && s.jobs[p].phase == Modeling then Settled(s, p, outcome) else s
    case Continue(p) =>
      if p in s.jobs && s.jobs[p].phase == Answered && s.db.Some? then
        Advance(s.(db := RemoveProgress(s.db, Signatures(CurrentBatch(s.jobs[p])))), p, s.jobs[p].batch + 1)
      else if p in s.jobs && s.jobs[p].phase in {Answered, Failed} then EndLoop(s, p, s.jobs[p].batch, true)
      else s
    case Leave(p) =>
      if p in s.jobs && s.jobs[p].phase == Leaving then s.(jobs := s.jobs - {p}) else s
    case Stop(p) => if p in s.jobs then s.(jobs := s.jobs[p := s.jobs[p].(cancelled := true)]) else s
    case StopAll(editor) => s.(jobs := CancelAll(s.jobs, editor))
    case Edit(signature, models) =>
      if s.db.None? then s
      else s.(db := Some(s.db.value.(
             modeledMethods := s.db.value.modeledMethods[signature := models],
             modifiedMethodSignatures := s.db.value.modifiedMethodSignatures + {signature})))
    case AddModels(added) =>
      if s.db.None? then s
      else s.(db := Some(s.db.value.(
             modeledMethods := Merge(s.db.value.modeledMethods, added),
             modifiedMethodSignatures := s.db.value.modifiedMethodSignatures + added.Keys)))
    case ReplaceAll(replacement) =>
      if s.db.None? then s else s.(db := Some(s.db.value.(modeledMethods := replacement)))
    case Close => s.(db := None)
    case Reopen => s.(db := Some(BLANK), opening := s.opening + 1)
  }

  ghost predicate AllMeaningful(inputs: seq<Input>) {
    forall i | 0 <= i < |inputs| :: Meaningful(inputs[i])
  }

  ghost function Run(s: System, inputs: seq<Input>): System
    requires AllMeaningful(inputs)
  {
    if inputs == [] then s else Step(Run(s, inputs[..|inputs| - 1]), inputs[|inputs| - 1])
  }

  predicate Initial(s: System) {
    s.jobs == map[] && (s.db.Some? ==> s.db.value.inProgressMethods == {})
  }

  // ---------------------------------------------------------------------------
  // What each step does

  /** A package without a job gets one with all methods that are neither modeled nor supported, each as often as it was
      given, in the order of the user interface; a missing or zero batch size is 10.  Nothing else changes. */
  lemma StartTakesTheCandidates(s: System, input: Input, m: Method)
    requires Meaningful(input) && input.Start?
    ensures input.slot in s.jobs ==> Step(s, input) == s
    ensures input.slot !in s.jobs ==>
              var r := Step(s, input);
              && input.slot in r.jobs
              && var j := r.jobs[input.slot];
              && r == System(s.jobs[input.slot := j], s.db, s.opening)
              && j.candidates == CandidatesOf(InUiOrder(input.methods, input.order), input.modeled)
              && multiset(j.candidates)[m] ==
                 (if m.supported || (m.signature in input.modeled && HasModel(input.modeled[m.signature])) then 0
                  else multiset(input.methods)[m])
              && j.size == (if input.setting.None? || input.setting == Some(0) then 10 else input.setting.value)
              && j.phase == Waiting && !j.cancelled && !j.missed && j.batch == 0
  {
    hide CandidatesOf, InUiOrder, HasModel;
    AllCounts(input.methods, input.modeled, input.order);
  }

  /** A job that begins takes up its first batch, unless there is none, it was stopped, or the database is closed. */
  lemma BeginTakesUp(s: System, p: Slot)
    requires p in s.jobs && s.jobs[p].phase == Waiting && s.jobs[p].candidates != []
    ensures var j, r := s.jobs[p], Step(s, Begin(p));
      && p in r.jobs && r.opening == s.opening && r.jobs[p].begun == s.opening
      && (j.size > 0 && !j.cancelled && s.db.Some? ==>
            && r.jobs[p].phase == Modeling && r.jobs[p].batch == 0 && r.jobs[p].shown == s.opening && r.db.Some?
            && CurrentBatch(r.jobs[p]) == (if j.size < |j.candidates| then j.candidates[..j.size] else j.candidates)
            && r.db.value == s.db.value.(
                 inProgressMethods := s.db.value.inProgressMethods + Signatures(CurrentBatch(r.jobs[p]))))
      && (j.size < 0 || j.cancelled || s.db.None? ==>
            && r.jobs[p].phase == Leaving
            && r.jobs[p].missed == (j.missed || (j.size > 0 && !j.cancelled))
            && (s.db.None? ==> r.db.None?)
            && (s.db.Some? ==>
                  r.db == Some(s.db.value.(
                    inProgressMethods := s.db.value.inProgressMethods - Signatures(j.candidates)))))
  {
    hide BatchNumber, Signatures;
    var j := s.jobs[p];
    if j.size > 0 {
      BatchNumberIsCeiling(|j.candidates|, j.size);
    } else if j.size < 0 {
      NegativeSize(|j.candidates|, j.size);
    }
  }

  /** A job without candidates ends at once. */
  lemma NothingToBegin(s: System, p: Slot)
    requires p in s.jobs && s.jobs[p].phase == Waiting && s.jobs[p].candidates == []
    ensures Step(s, Begin(p)) == s.(jobs := s.jobs[p := s.jobs[p].(phase := Leaving)])
  {
  }

  /** After a batch its methods are no longer in progress, and the next batch is taken up, or the loop ends: when all
      batches are through, when the job was stopped, or when the batch threw or the database is closed. */
  lemma ContinueTakesUp(s: System, p: Slot)
    requires p in s.jobs && s.jobs[p].phase in {Answered, Failed} && s.jobs[p].size > 0 && s.jobs[p].batch >= 0
    ensures var j, r := s.jobs[p], Step(s, Continue(p));
      var goesOn := j.phase == Answered && s.db.Some? && !j.cancelled && (j.batch + 1) * j.size < |j.candidates|;
      && p in r.jobs && r.opening == s.opening && r.db.Some? == s.db.Some?
      && r.jobs[p].candidates == j.candidates && r.jobs[p].cancelled == j.cancelled
      && r.jobs[p].phase == (if goesOn then Modeling else Leaving)
      && r.jobs[p].missed == (j.missed || j.phase == Failed || s.db.None?)
      && r.jobs[p].begun == j.begun && (goesOn ==> r.jobs[p].shown == s.opening)
      && (s.db.Some? ==>
            && r.db.value.modeledMethods == s.db.value.modeledMethods
            && r.db.value.modifiedMethodSignatures == s.db.value.modifiedMethodSignatures)
      && (goesOn ==>
            && r.jobs[p].batch == j.batch + 1
            && CurrentBatch(r.jobs[p]) == Batch(j.candidates, j.size, j.batch + 1)
            && r.db.value.inProgressMethods ==
               s.db.value.inProgressMethods - Signatures(CurrentBatch(j)) + Signatures(CurrentBatch(r.jobs[p])))
      && (!goesOn && s.db.Some? ==>
            r.db.value.inProgressMethods ==
            s.db.value.inProgressMethods - Signatures(CurrentBatch(j)) - Signatures(j.candidates))
  {
    hide BatchNumber, Signatures, Batch;
    var j := s.jobs[p];
    BatchNumberIsCeiling(|j.candidates|, j.size);
    MoreBatches(|j.candidates|, j.size, j.batch + 1);
    PartSignatures(CurrentBatch(j), j.candidates);
  }

  lemma MoreBatches(n: nat, size: nat, i: nat)
    requires size > 0
    ensures i < BatchNumber(n, size) <==> i * size < n
  {
    hide BatchNumber;
    BatchNumberIsCeiling(n, size);
    var b := BatchNumber(n, size);
    if i < b {
      TimesGrows(i, b - 1, size);
    } else {
      TimesGrows(b, i, size);
    }
  }

  lemma TimesGrows(a: int, b: int, size: nat)
    requires a <= b
    ensures a * size <= b * size
  {
    var d := b - a;
    assert d * size >= 0;
    assert b * size == (a + d) * size;
  }

  /** A batch without a response, or with one that cannot be loaded or stored, changes nothing in the store; without a
      response the job goes on, otherwise its loop will end. */
  lemma NoModelsForTheBatch(s: System, p: Slot, outcome: Outcome)
    requires p in s.jobs && s.jobs[p].phase == Modeling
    requires outcome.Response? ==> s.db.None? || !IsValidFile(outcome.extensions)
    ensures var j, r := s.jobs[p], Step(s, Settle(p, outcome));
      r == s.(jobs := s.jobs[p := j.(phase := if outcome.NoResult? then Answered else Failed, missed := true)])
  {
    hide IsValidFile;
  }

  /** A response leaves the other jobs and what is in progress as they are; `ResponseModelsTheBatch` says what it
      stores. */
  lemma ResponseIsAnswered(s: System, p: Slot, extensions: seq<Extension>)
    requires p in s.jobs && s.jobs[p].phase == Modeling && s.db.Some? && IsValidFile(extensions)
    ensures var r := Step(s, Settle(p, Response(extensions)));
      && r.jobs == s.jobs[p := s.jobs[p].(phase := Answered)] && r.opening == s.opening
      && r.db.Some? && r.db.value.inProgressMethods == s.db.value.inProgressMethods
  {
    hide IsValidFile, Filled, Loaded, CurrentBatch;
  }

  /** A stop marks the job of its package, and one of all those of its auto-modeler; nothing else changes. */
  lemma StopMarksExactly(s: System, p: Slot, editor: nat, q: Slot)
    ensures p !in s.jobs ==> Step(s, Stop(p)) == s
    ensures p in s.jobs ==> Step(s, Stop(p)) == s.(jobs := s.jobs[p := s.jobs[p].(cancelled := true)])
    ensures var r := Step(s, StopAll(editor));
      && r == s.(jobs := r.jobs) && (q in r.jobs <==> q in s.jobs)
      && (q in s.jobs ==>
            r.jobs[q] == s.jobs[q].(cancelled := s.jobs[q].cancelled || q.editor == editor))
  {
  }

  /** What users and files do to the store */
  lemma EditsDo(s: System, signature: string, models: seq<ModeledMethod>, other: ModeledMethods)
    ensures s.db.None? ==>
              Step(s, Edit(signature, models)) == Step(s, AddModels(other)) == Step(s, ReplaceAll(other)) == s
    ensures s.db.Some? ==>
              var db := s.db.value;
              && Step(s, Edit(signature, models)) ==
                 s.(db := Some(DbState(db.modeledMethods[signature := models],
                                       db.modifiedMethodSignatures + {signature}, db.inProgressMethods)))
              && Step(s, ReplaceAll(other)) ==
                 s.(db := Some(DbState(other, db.modifiedMethodSignatures, db.inProgressMethods)))
              && var r := Step(s, AddModels(other));
              && r.jobs == s.jobs && r.opening == s.opening && r.db.Some?
              && r.db.value.inProgressMethods == db.inProgressMethods
              && r.db.value.modifiedMethodSignatures == db.modifiedMethodSignatures + other.Keys
              && var after := r.db.value.modeledMethods;
              && (signature in db.modeledMethods && HasModel(db.modeledMethods[signature]) ==>
                    signature in after && after[signature] == db.modeledMethods[signature])
              && (!(signature in db.modeledMethods && HasModel(db.modeledMethods[signature])) ==>
                    && (signature in after <==> signature in other)
                    && (signature in other ==> after[signature] == other[signature]))
    ensures Step(s, Close) == System(s.jobs, None, s.opening)
    ensures Step(s, Reopen) == System(s.jobs, Some(DbState(map[], {}, {})), s.opening + 1)
  {
    hide HasModel;
  }

  // ---------------------------------------------------------------------------
  // Several auto-modelers

  /** The input does not concern these jobs. */
  predicate Spares(input: Input, others: map<Slot, Job>) {
    match input
    case Start(p, _, _, _, _) => p !in others
    case Begin(p) => p !in others
    case Settle(p, _) => p !in others
    case Continue(p) => p !in others
    case Leave(p) => p !in others
    case Stop(p) => p !in others
    case StopAll(editor) => forall p | p in others :: p.editor != editor
    case _ => true
  }

  function Beside(s: System, others: map<Slot, Job>): System {
    s.(jobs := s.jobs + others)
  }

  lemma BesideUpdates(jobs: map<Slot, Job>, others: map<Slot, Job>, p: Slot, j: Job)
    requires p !in others
    ensures (jobs + others)[p := j] == jobs[p := j] + others
    ensures (jobs + others) - {p} == (jobs - {p}) + others
    ensures p in jobs + others <==> p in jobs
    ensures p in jobs ==> (jobs + others)[p] == jobs[p]
  {
  }

  lemma BesideCancelled(jobs: map<Slot, Job>, others: map<Slot, Job>, editor: nat)
    requires forall p | p in others :: p.editor != editor
    ensures CancelAll(jobs + others, editor) == CancelAll(jobs, editor) + others
  {
  }

  lemma BesideAdvances(s: System, others: map<Slot, Job>, p: Slot, i: int)
    requires p in s.jobs && p !in others
    ensures p in Beside(s, others).jobs
    ensures Advance(Beside(s, others), p, i) == Beside(Advance(s, p, i), others)
    ensures EndLoop(Beside(s, others), p, i, true) == Beside(EndLoop(s, p, i, true), others)
  {
    hide Batch, BatchNumber, CurrentBatch, Signatures;
    var j := s.jobs[p].(phase := Modeling, batch := i, shown := s.opening);
    BesideUpdates(s.jobs, others, p, j);
    BesideUpdates(s.jobs, others, p, s.jobs[p].(phase := Leaving, batch := i, missed := true));
    BesideUpdates(s.jobs, others, p, s.jobs[p].(phase := Leaving, batch := i));
  }

  lemma BesideBegins(s: System, others: map<Slot, Job>, p: Slot)
    requires p in s.jobs && p !in others
    ensures Step(Beside(s, others), Begin(p)) == Beside(Step(s, Begin(p)), others)
  {
    hide Advance;
    var j := s.jobs[p];
    BesideUpdates(s.jobs, others, p, j.(phase := Leaving));
    BesideUpdates(s.jobs, others, p, j.(begun := s.opening));
    assert Begun(Beside(s, others), p) == Beside(Begun(s, p), others);
    BesideAdvances(Begun(s, p), others, p, 0);
  }

  lemma BesideSettles(s: System, others: map<Slot, Job>, p: Slot, outcome: Outcome)
    requires p in s.jobs && p !in others
    ensures Step(Beside(s, others), Settle(p, outcome)) == Beside(Step(s, Settle(p, outcome)), others)
  {
    hide CurrentBatch, Receive, IsValidFile;
    var j := s.jobs[p];
    BesideUpdates(s.jobs, others, p, j.(phase := Answered, missed := true));
    BesideUpdates(s.jobs, others, p, j.(phase := Failed, missed := true));
    BesideUpdates(s.jobs, others, p, j.(phase := Answered));
  }

  lemma BesideContinues(s: System, others: map<Slot, Job>, p: Slot)
    requires p in s.jobs && p !in others
    ensures Step(Beside(s, others), Continue(p)) == Beside(Step(s, Continue(p)), others)
  {
    hide Advance, EndLoop, Signatures, CurrentBatch;
    var j := s.jobs[p];
    var progress := RemoveProgress(s.db, Signatures(CurrentBatch(j)));
    BesideUpdates(s.jobs, others, p, j);
    BesideAdvances(s, others, p, j.batch);
    BesideAdvances(s.(db := progress), others, p, j.batch + 1);
    assert Beside(s, others).(db := progress) == Beside(s.(db := progress), others);
  }

  lemma NotThere(s: System, input: Input, p: Slot)
    requires input.Begin? || input.Settle? || input.Continue? || input.Leave? || input.Stop?
    requires p == input.slot && p !in s.jobs
    ensures Step(s, input) == s
  {
  }

  /** A step of one auto-modeler is the same beside the jobs of any others, so what the object of the auto-modeler
      does to its own jobs and to the store is a step of the whole. */
  lemma StepIsLocal(s: System, input: Input, others: map<Slot, Job>)
    requires Meaningful(input) && Spares(input, others)
    ensures Step(Beside(s, others), input) == Beside(Step(s, input), others)
  {
    hide Step, NewJob, Meaningful;
    match input
    case Start(p, _, _, _, _) => BesideStarts(s, others, input);
    case StopAll(editor) => BesideStops(s, others, input);
    case Edit(_, _) => BesideEdits(s, others, input);
    case AddModels(_) => BesideEdits(s, others, input);
    case ReplaceAll(_) => BesideEdits(s, others, input);
    case Close => BesideEdits(s, others, input);
    case Reopen => BesideEdits(s, others, input);
    case _ =>
      if input.slot in s.jobs {
        match input
        case Begin(p) => BesideBegins(s, others, p);
        case Settle(p, outcome) => BesideSettles(s, others, p, outcome);
        case Continue(p) => BesideContinues(s, others, p);
        case _ => BesideStops(s, others, input);
      } else {
        NotThere(s, input, input.slot);
        NotThere(Beside(s, others), input, input.slot);
      }
  }

  lemma BesideStarts(s: System, others: map<Slot, Job>, input: Input)
    requires Meaningful(input) && input.Start? && input.slot !in others
    ensures Step(Beside(s, others), input) == Beside(Step(s, input), others)
  {
    hide NewJob, Sorts;
    BesideUpdates(s.jobs, others, input.slot, NewJob(input));
  }

  lemma BesideStops(s: System, others: map<Slot, Job>, input: Input)
    requires input.StopAll? || ((input.Stop? || input.Leave?) && input.slot in s.jobs)
    requires Spares(input, others)
    ensures Step(Beside(s, others), input) == Beside(Step(s, input), others)
  {
    if input.StopAll? {
      BesideCancelled(s.jobs, others, input.editor);
    } else {
      BesideUpdates(s.jobs, others, input.slot, s.jobs[input.slot].(cancelled := true));
    }
  }

  lemma BesideEdits(s: System, others: map<Slot, Job>, input: Input)
    requires input.Edit? || input.AddModels? || input.ReplaceAll? || input.Close? || input.Reopen?
    ensures Step(Beside(s, others), input) == Beside(Step(s, input), others)
  {
    hide Merge;
  }

  // ---------------------------------------------------------------------------
  // One job per package

  /** A package has one job at a time: a job stays, with its candidates, until it has ended, and a package that
      has a job gets no other one. */
  lemma OneJobPerPackage(s: System, input: Input, p: Slot)
    requires Meaningful(input)
    ensures var r := Step(s, input);
      && (p in s.jobs && p in r.jobs ==>
            r.jobs[p].candidates == s.jobs[p].candidates && r.jobs[p].size == s.jobs[p].size)
      && (p in s.jobs && p !in r.jobs ==> input == Leave(p) && s.jobs[p].phase == Leaving)
      && (p !in s.jobs && p in r.jobs ==> input.Start? && input.slot == p && r.jobs[p] == NewJob(input))
      && (p in s.jobs && input.Start? && input.slot == p ==> r == s)
  {
    hide NewJob, BatchNumber, Batch, Signatures, Receive;
  }

  // ---------------------------------------------------------------------------
  // What every step keeps of each job

  ghost predicate JobSound(j: Job, opening: nat) {
    && j.begun <= opening && j.shown <= opening
    && j.size != 0 && j.batch >= 0
    && (j.phase == Waiting ==> j.batch == 0 && !j.missed)
    && (Busy(j) ==> j.batch < Number(j) && j.size > 0)
    && (j.phase == Failed ==> j.missed)
    && (j.batch > 0 ==> j.batch <= Number(j) && j.size > 0)
    && (j.phase == Leaving && !j.cancelled && !j.missed ==> Number(j) <= j.batch)
  }

  ghost predicate Sound(s: System) {
    forall p | p in s.jobs :: JobSound(s.jobs[p], s.opening)
  }

  lemma AdvanceIsSound(s: System, p: Slot, i: int)
    requires p in s.jobs && s.jobs[p].size != 0 && s.jobs[p].begun <= s.opening && s.jobs[p].shown <= s.opening
    requires i == 0 || (0 < i <= Number(s.jobs[p]) && s.jobs[p].size > 0)
    requires forall q | q in s.jobs && q != p :: JobSound(s.jobs[q], s.opening)
    ensures Sound(Advance(s, p, i))
  {
    hide BatchNumber, Batch, Signatures;
    var j := s.jobs[p];
    if j.size < 0 {
      NegativeSize(|j.candidates|, j.size);
    }
  }

  lemma ThrownIsSound(s: System, p: Slot)
    requires Sound(s) && p in s.jobs && s.jobs[p].phase in {Answered, Failed}
    ensures Sound(EndLoop(s, p, s.jobs[p].batch, true))
  {
    hide BatchNumber, Batch, Signatures;
  }

  lemma SettledIsSound(s: System, p: Slot, outcome: Outcome)
    requires Sound(s) && p in s.jobs && s.jobs[p].phase == Modeling
    ensures Sound(Settled(s, p, outcome))
  {
    hide BatchNumber, CurrentBatch, Receive, IsValidFile;
  }

  lemma EmptyIsDone(j: Job)
    requires j.candidates == [] && j.size != 0
    ensures Number(j) <= 0
  {
    if j.size > 0 {
      BatchNumberIsCeiling(0, j.size);
    } else {
      NegativeSize(0, j.size);
    }
  }

  lemma StepIsSound(s: System, input: Input)
    requires Meaningful(input) && Sound(s)
    ensures Sound(Step(s, input))
  {
    hide BatchNumber, CurrentBatch, Signatures, Merge, NewJob, Advance, EndLoop, Settled;
    match input
    case Start(p, _, _, _, _) =>
      NewJobIsSound(input, s.opening);
    case Begin(p) =>
      if p in s.jobs && s.jobs[p].phase == Waiting {
        AdvanceIsSound(Begun(s, p), p, 0);
        if s.jobs[p].candidates == [] {
          EmptyIsDone(s.jobs[p]);
        }
      }
    case Settle(p, outcome) =>
      if p in s.jobs && s.jobs[p].phase == Modeling {
        SettledIsSound(s, p, outcome);
      }
    case Continue(p) =>
      if p in s.jobs && s.jobs[p].phase in {Answered, Failed} {
        ThrownIsSound(s, p);
        if s.jobs[p].phase == Answered {
          AdvanceIsSound(s.(db := RemoveProgress(s.db, Signatures(CurrentBatch(s.jobs[p])))), p, s.jobs[p].batch + 1);
        }
      }
    case _ =>
  }

  lemma NewJobIsSound(input: Input, opening: nat)
    requires Meaningful(input) && input.Start?
    ensures JobSound(NewJob(input), opening)
  {
    hide CandidatesOf, InUiOrder;
  }

  /** How many steps of its own a job still has before it */
  function Rank(j: Job): int {
    var n := if Number(j) > 0 then Number(j) else 0;
    match j.phase
    case Waiting => 2 * n + 3
    case Modeling => 2 * (n - j.batch) + 2
    case Answered => 2 * (n - j.batch) + 1
    case Failed => 2 * (n - j.batch) + 1
    case Leaving => 1
  }

  predicate IsOwnStep(input: Input, j: Job, p: Slot) {
    match j.phase
    case Waiting => input.Begin? && input.slot == p
    case Modeling => input.Settle? && input.slot == p
    case Answered => input.Continue? && input.slot == p
    case Failed => input.Continue? && input.slot == p
    case Leaving => input.Leave? && input.slot == p
  }

  /** Every job ends: each of its own steps brings it closer to its end, and no other step sets it back. */
  lemma JobsEnd(s: System, input: Input, p: Slot)
    requires Meaningful(input) && Sound(s) && p in s.jobs
    ensures var r := Step(s, input);
      && Rank(s.jobs[p]) > 0
      && (if IsOwnStep(input, s.jobs[p], p) then p in r.jobs ==> Rank(r.jobs[p]) < Rank(s.jobs[p])
          else p in r.jobs && Rank(r.jobs[p]) == Rank(s.jobs[p]))
  {
    hide Step, Rank, IsOwnStep, Sound, Meaningful;
    if IsOwnStep(input, s.jobs[p], p) {
      OwnStepAdvances(s, input, p);
    } else {
      OtherStepsKeepRank(s, input, p);
    }
  }

  lemma AdvanceRank(s: System, p: Slot, i: nat)
    requires p in s.jobs
    ensures var j, r := s.jobs[p], Advance(s, p, i);
      p in r.jobs && Rank(r.jobs[p]) <= if i < Number(j) then 2 * (Number(j) - i) + 2 else 1
  {
    hide BatchNumber, CurrentBatch, Signatures;
  }

  lemma SettledRank(s: System, p: Slot, outcome: Outcome)
    requires p in s.jobs && JobSound(s.jobs[p], s.opening) && s.jobs[p].phase == Modeling
    ensures p in Settled(s, p, outcome).jobs && Rank(Settled(s, p, outcome).jobs[p]) < Rank(s.jobs[p])
  {
    hide BatchNumber, CurrentBatch, Receive, IsValidFile;
  }

  lemma OwnStepAdvances(s: System, input: Input, p: Slot)
    requires Meaningful(input) && Sound(s) && p in s.jobs && IsOwnStep(input, s.jobs[p], p)
    ensures Rank(s.jobs[p]) > 0
    ensures p in Step(s, input).jobs ==> Rank(Step(s, input).jobs[p]) < Rank(s.jobs[p])
  {
    hide BatchNumber, CurrentBatch, Signatures, Advance, Settled, NewJob;
    var j := s.jobs[p];
    assert JobSound(j, s.opening);
    match j.phase
    case Waiting => AdvanceRank(Begun(s, p), p, 0);
    case Modeling => SettledRank(s, p, input.outcome);
    case Answered =>
      AdvanceRank(s.(db := RemoveProgress(s.db, Signatures(CurrentBatch(j)))), p, j.batch + 1);
    case Failed =>
    case Leaving =>
  }

  lemma OtherStepsKeepRank(s: System, input: Input, p: Slot)
    requires Meaningful(input) && Sound(s) && p in s.jobs && !IsOwnStep(input, s.jobs[p], p)
    ensures Rank(s.jobs[p]) > 0
    ensures p in Step(s, input).jobs && Rank(Step(s, input).jobs[p]) == Rank(s.jobs[p])
  {
    hide BatchNumber, Signatures, CurrentBatch, Receive, NewJob;
    assert JobSound(s.jobs[p], s.opening);
  }

  lemma NothingRunsAtFirst(s: System)
    requires Initial(s)
    ensures Sound(s) && BusyIsShown(s) && ShownIsWorked(s) && WorkedIsShown(s) && Disjoint(s) && Covered(s, [])
  {
    assert s.jobs == map[];
  }

  lemma {:induction false} RunIsSound(s: System, inputs: seq<Input>)
    requires AllMeaningful(inputs) && Initial(s)
    ensures Sound(Run(s, inputs))
    decreases |inputs|
  {
    hide Step, Meaningful, Sound;
    if inputs == [] {
      NothingRunsAtFirst(s);
    } else {
      RunIsSound(s, inputs[..|inputs| - 1]);
      StepIsSound(Run(s, inputs[..|inputs| - 1]), inputs[|inputs| - 1]);
    }
  }

  // ---------------------------------------------------------------------------
  // Stopping

  /** A stopped job stays stopped and takes up no batch; a batch it works on is its last. */
  lemma StoppedStep(s: System, input: Input, p: Slot)
    requires Meaningful(input) && p in s.jobs && s.jobs[p].cancelled && !(input.Leave? && input.slot == p)
    ensures var r := Step(s, input);
      && p in r.jobs && r.jobs[p].cancelled
      && (Busy(r.jobs[p]) ==> Busy(s.jobs[p]) && r.jobs[p].batch == s.jobs[p].batch)
  {
    hide BatchNumber, Batch, Signatures, Receive, NewJob;
  }

  lemma {:induction false} StoppedRun(s: System, inputs: seq<Input>, p: Slot)
    requires AllMeaningful(inputs) && p in s.jobs && s.jobs[p].cancelled
    requires forall i | 0 <= i < |inputs| :: !(inputs[i].Leave? && inputs[i].slot == p)
    ensures var r := Run(s, inputs);
      && p in r.jobs && r.jobs[p].cancelled
      && (Busy(r.jobs[p]) ==> Busy(s.jobs[p]) && r.jobs[p].batch == s.jobs[p].batch)
    decreases |inputs|
  {
    hide Step, Meaningful;
    if inputs != [] {
      StoppedRun(s, inputs[..|inputs| - 1], p);
      StoppedStep(Run(s, inputs[..|inputs| - 1]), inputs[|inputs| - 1], p);
    }
  }

  /** After a stop of its package, or of all, a job takes up no further batch in any run until it has ended, and
      when it next resumes it ends its loop. */
  lemma StopStartsNoBatch(s: System, stop: Input, inputs: seq<Input>, resumption: Input, p: Slot)
    requires p in s.jobs && (stop == Stop(p) || stop == StopAll(p.editor))
    requires AllMeaningful(inputs)
    requires forall i | 0 <= i < |inputs| :: !(inputs[i].Leave? && inputs[i].slot == p)
    requires resumption == Input.Begin(p) || resumption == Input.Continue(p)
    ensures var r := Run(Step(s, stop), inputs);
      && p in r.jobs
      && (Busy(r.jobs[p]) ==> Busy(s.jobs[p]) && r.jobs[p].batch == s.jobs[p].batch)
      && (IsOwnStep(resumption, r.jobs[p], p) ==>
            p in Step(r, resumption).jobs && Step(r, resumption).jobs[p].phase == Leaving)
  {
    hide Run, BatchNumber, Batch, Signatures;
    StopMarks(s, stop, p);
    StoppedRun(Step(s, stop), inputs, p);
  }

  lemma StopMarks(s: System, stop: Input, p: Slot)
    requires p in s.jobs && (stop == Stop(p) || stop == StopAll(p.editor))
    ensures var r := Step(s, stop); p in r.jobs && r.jobs[p] == s.jobs[p].(cancelled := true)
  {
  }

  // ---------------------------------------------------------------------------
  // Methods in progress

  /** What the job of a slot, if it has one, is working on, if it has taken that up since the database was last
      opened */
  function Working(s: System, p: Slot): set<string> {
    if p in s.jobs && s.jobs[p].shown == s.opening then Signatures(CurrentBatch(s.jobs[p])) else {}
  }

  function InProgress(s: System): set<string> {
    if s.db.Some? then s.db.value.inProgressMethods else {}
  }

  /** A method is shown as in progress only if a job is working on it ... */
  ghost predicate ShownIsWorked(s: System) {
    forall m | m in InProgress(s) :: exists p :: m in Working(s, p)
  }

  /** ... and if a job is working on it. */
  ghost predicate WorkedIsShown(s: System) {
    s.db.Some? ==> forall p :: Working(s, p) <= InProgress(s)
  }

  ghost predicate Disjoint(s: System) {
    forall p, q | p in s.jobs && q in s.jobs && p != q ::
      Signatures(s.jobs[p].candidates) !! Signatures(s.jobs[q].candidates)
  }

  /** What the resumption of a job removes from the methods in progress */
  function Cleared(j: Job, j': Job): set<string> {
    if j'.phase == Leaving then Signatures(j.candidates) else Signatures(CurrentBatch(j))
  }

  /** From `s` to `r`, the job of `p` leaves one batch and takes up the next one, or ends its loop. */
  ghost predicate Resumes(s: System, r: System, p: Slot) {
    && p in s.jobs && p in r.jobs
    && r.jobs[p].candidates == s.jobs[p].candidates
    && (forall q | q != p :: Working(r, q) == Working(s, q))
    && r.db.Some? == s.db.Some? && r.opening == s.opening
    && InProgress(r) == if s.db.None? then {} else InProgress(s) - Cleared(s.jobs[p], r.jobs[p]) + Working(r, p)
  }

  predicate Resumption(s: System, input: Input, p: Slot) {
    && p in s.jobs
    && ((input.Begin? && input.slot == p && s.jobs[p].phase == Waiting)
        || (input.Continue? && input.slot == p && s.jobs[p].phase in {Answered, Failed}))
  }

  lemma PartSignatures(part: seq<Method>, all: seq<Method>)
    requires forall m | m in part :: m in all
    ensures Signatures(part) <= Signatures(all)
  {
    forall s | s in Signatures(part)
      ensures s in Signatures(all)
    {
      var i :| 0 <= i < |part| && part[i].signature == s;
      MemberSignature(all, part[i]);
    }
  }

  lemma NoSignatures()
    ensures Signatures([]) == {}
  {
  }

  lemma EndResumes(s: System, p: Slot, i: int, thrown: bool)
    requires p in s.jobs
    ensures Resumes(s, EndLoop(s, p, i, thrown), p)
  {
    hide Batch, BatchNumber, Signatures;
    NoSignatures();
  }

  lemma AdvanceResumes(s: System, p: Slot, i: int)
    requires p in s.jobs && s.db.Some?
    ensures var j := s.jobs[p];
      Resumes(s, Advance(s.(db := RemoveProgress(s.db, Signatures(CurrentBatch(j)))), p, i), p)
  {
    hide Batch, BatchNumber, Signatures;
    var j := s.jobs[p];
    PartSignatures(CurrentBatch(j), j.candidates);
    NoSignatures();
  }

  lemma BeginResumes(s: System, p: Slot)
    requires p in s.jobs && s.jobs[p].phase == Waiting
    ensures Resumes(s, Step(s, Begin(p)), p)
  {
    hide Batch, BatchNumber, Signatures, EndLoop, Advance;
    NoSignatures();
    if s.jobs[p].candidates != [] {
      if s.db.Some? {
        var none: set<string> := {};
        assert s.db.value.inProgressMethods - none == s.db.value.inProgressMethods;
        assert RemoveProgress(s.db, none) == s.db;
        AdvanceResumes(Begun(s, p), p, 0);
      } else {
        AdvanceThrows(Begun(s, p), p, 0);
        EndResumes(Begun(s, p), p, 0, true);
        EndResumes(Begun(s, p), p, 0, false);
      }
    }
  }

  lemma AdvanceThrows(s: System, p: Slot, i: int)
    requires p in s.jobs && s.db.None?
    ensures Advance(s, p, i) == EndLoop(s, p, i, true) || Advance(s, p, i) == EndLoop(s, p, i, false)
  {
  }

  lemma ContinueResumes(s: System, p: Slot)
    requires p in s.jobs && s.jobs[p].phase in {Answered, Failed}
    ensures Resumes(s, Step(s, Continue(p)), p)
  {
    hide Batch, BatchNumber, Signatures, EndLoop, Advance, Resumes;
    if s.jobs[p].phase == Answered && s.db.Some? {
      AdvanceResumes(s, p, s.jobs[p].batch + 1);
    } else {
      EndResumes(s, p, s.jobs[p].batch, true);
    }
  }

  /** The steps that neither resume a job nor close or open the database leave what is in progress alone. */
  lemma QuietStep(s: System, input: Input)
    requires Meaningful(input) && input != Close && input != Reopen
    requires forall p :: !Resumption(s, input, p)
    ensures var r := Step(s, input);
      InProgress(r) == InProgress(s) && r.db.Some? == s.db.Some? && forall p :: Working(r, p) == Working(s, p)
  {
    hide Batch, BatchNumber, Signatures, EndLoop, Advance, NewJob, Receive, Merge;
    NoSignatures();
    var r := Step(s, input);
    if input.Start? && input.slot !in s.jobs {
      NewJobIsSound(input, s.opening);
      NewJobWaits(input);
    }
    if (input.Begin? || input.Continue?) && input.slot in s.jobs {
      assert !Resumption(s, input, input.slot);
    }
    if input.Settle? {
      SettleIsQuiet(s, input.slot, input.outcome);
    }
  }

  lemma NewJobWaits(input: Input)
    requires Meaningful(input) && input.Start?
    ensures NewJob(input).phase == Waiting
  {
    hide CandidatesOf, InUiOrder;
  }

  lemma SettleIsQuiet(s: System, p: Slot, outcome: Outcome)
    ensures var r := Step(s, Settle(p, outcome));
      InProgress(r) == InProgress(s) && forall q :: Working(r, q) == Working(s, q)
  {
    hide Batch, BatchNumber, Signatures, Filled, Loaded, Merge;
  }

  lemma ResumeShowsWorked(s: System, r: System, p: Slot)
    requires Resumes(s, r, p) && ShownIsWorked(s)
    ensures ShownIsWorked(r)
  {
    hide CurrentBatch, Signatures;
    PartSignatures(CurrentBatch(s.jobs[p]), s.jobs[p].candidates);
    forall m | m in InProgress(r)
      ensures exists q :: m in Working(r, q)
    {
      if m !in Working(r, p) {
        var q :| m in Working(s, q);
        assert q != p;
        assert m in Working(r, q);
      }
    }
  }

  /** A resumed job hides the work of others exactly if it clears a method that another job is working on and
      does not take it up itself. */
  lemma ResumeShowsWork(s: System, r: System, p: Slot)
    requires Resumes(s, r, p) && WorkedIsShown(s) && s.db.Some?
    ensures WorkedIsShown(r) <==>
            forall q, m | q != p && m in Working(s, q) && m in Cleared(s.jobs[p], r.jobs[p]) :: m in Working(r, p)
  {
    hide CurrentBatch, Signatures, Cleared;
    if forall q, m | q != p && m in Working(s, q) && m in Cleared(s.jobs[p], r.jobs[p]) :: m in Working(r, p) {
      forall q
        ensures Working(r, q) <= InProgress(r)
      {
        if q != p {
          assert Working(r, q) == Working(s, q);
        }
      }
    }
    if WorkedIsShown(r) {
      forall q, m | q != p && m in Working(s, q) && m in Cleared(s.jobs[p], r.jobs[p])
        ensures m in Working(r, p)
      {
        assert m in Working(r, q);
      }
    }
  }

  lemma ProgressStep(s: System, input: Input)
    requires Meaningful(input) && Sound(s) && ShownIsWorked(s)
    ensures ShownIsWorked(Step(s, input))
  {
    hide Step, Meaningful, Working, Resumes;
    var r := Step(s, input);
    if p :| Resumption(s, input, p) {
      StepResumes(s, input, p);
      ResumeShowsWorked(s, r, p);
    } else if input == Close || input == Reopen {
      OpeningStep(s, input);
    } else {
      QuietStep(s, input);
    }
  }

  lemma StepResumes(s: System, input: Input, p: Slot)
    requires Meaningful(input) && Resumption(s, input, p)
    ensures Resumes(s, Step(s, input), p)
  {
    hide Step, Resumes, Meaningful;
    if input.Begin? {
      BeginResumes(s, p);
    } else {
      ContinueResumes(s, p);
    }
  }

  lemma OpeningStep(s: System, input: Input)
    requires input == Close || input == Reopen
    requires forall p | p in s.jobs :: s.jobs[p].shown <= s.opening
    ensures var r := Step(s, input);
      && r == (if input == Close then s.(db := None) else s.(db := Some(BLANK), opening := s.opening + 1))
      && InProgress(r) == {}
      && (r.db.Some? ==> forall p :: Working(r, p) == {})
  {
    hide CurrentBatch, Signatures;
  }

  /** A job that starts next to others shares no candidate with them. */
  ghost predicate Fits(s: System, input: Input)
    requires Meaningful(input)
  {
    input.Start? && input.slot !in s.jobs ==>
      forall q | q in s.jobs :: Signatures(s.jobs[q].candidates) !! Signatures(NewJob(input).candidates)
  }

  ghost predicate DisjointStarts(s: System, inputs: seq<Input>)
    requires AllMeaningful(inputs)
  {
    inputs == [] || (DisjointStarts(s, inputs[..|inputs| - 1])
                     && Fits(Run(s, inputs[..|inputs| - 1]), inputs[|inputs| - 1]))
  }

  lemma DisjointStep(s: System, input: Input)
    requires Meaningful(input) && Disjoint(s) && Fits(s, input)
    ensures Disjoint(Step(s, input))
  {
    hide Step, NewJob, Signatures;
    var r := Step(s, input);
    forall p, q | p in r.jobs && q in r.jobs && p != q
      ensures Signatures(r.jobs[p].candidates) !! Signatures(r.jobs[q].candidates)
    {
      OneJobPerPackage(s, input, p);
      OneJobPerPackage(s, input, q);
    }
  }

  lemma WorkStep(s: System, input: Input)
    requires Meaningful(input) && Sound(s) && Disjoint(s) && WorkedIsShown(s)
    ensures WorkedIsShown(Step(s, input))
  {
    hide Step, Meaningful, Resumes, Signatures, CurrentBatch;
    var r := Step(s, input);
    if p :| Resumption(s, input, p) {
      StepResumes(s, input, p);
      if s.db.Some? {
        ResumeShowsWork(s, r, p);
        ResumptionStays(s, r, p);
        OthersAreNotCleared(s, r, p);
      } else {
        ResumptionStays(s, r, p);
      }
    } else if input == Close || input == Reopen {
      OpeningStep(s, input);
    } else {
      QuietStep(s, input);
    }
  }

  lemma ResumptionStays(s: System, r: System, p: Slot)
    requires Resumes(s, r, p)
    ensures p in r.jobs && r.db.Some? == s.db.Some?
  {
  }

  lemma OthersAreNotCleared(s: System, r: System, p: Slot)
    requires Disjoint(s) && p in s.jobs && p in r.jobs
    ensures forall q, m | q != p && m in Working(s, q) :: m !in Cleared(s.jobs[p], r.jobs[p])
  {
    hide CurrentBatch, Signatures;
    PartSignatures(CurrentBatch(s.jobs[p]), s.jobs[p].candidates);
    forall q, m | q != p && m in Working(s, q)
      ensures m !in Cleared(s.jobs[p], r.jobs[p])
    {
      PartSignatures(CurrentBatch(s.jobs[q]), s.jobs[q].candidates);
    }
  }

  /** With jobs that share candidates, the step of one job hides what another one is working on exactly if it
      clears a method of the other one's batch that it does not take up itself. */
  lemma OverlapHidesWork(s: System, input: Input, p: Slot)
    requires Meaningful(input) && Resumption(s, input, p) && WorkedIsShown(s) && s.db.Some?
    ensures var r := Step(s, input);
      && p in r.jobs
      && (WorkedIsShown(r) <==>
            forall q, m | q != p && m in Working(s, q) && m in Cleared(s.jobs[p], r.jobs[p]) :: m in Working(r, p))
  {
    hide Step, Meaningful, Resumes, Cleared, WorkedIsShown;
    StepResumes(s, input, p);
    ResumptionStays(s, Step(s, input), p);
    ResumeShowsWork(s, Step(s, input), p);
  }

  lemma {:induction false} RunShowsWorked(s: System, inputs: seq<Input>)
    requires AllMeaningful(inputs) && Initial(s)
    ensures ShownIsWorked(Run(s, inputs))
    decreases |inputs|
  {
    hide Step, Meaningful, ShownIsWorked, Sound;
    if inputs == [] {
      NothingRunsAtFirst(s);
    } else {
      RunIsSound(s, inputs[..|inputs| - 1]);
      RunShowsWorked(s, inputs[..|inputs| - 1]);
      ProgressStep(Run(s, inputs[..|inputs| - 1]), inputs[|inputs| - 1]);
    }
  }

  lemma {:induction false} RunShowsWork(s: System, inputs: seq<Input>)
    requires AllMeaningful(inputs) && Initial(s) && DisjointStarts(s, inputs)
    ensures Disjoint(Run(s, inputs)) && WorkedIsShown(Run(s, inputs))
    decreases |inputs|
  {
    hide Step, Meaningful, WorkedIsShown, Disjoint, Fits, Sound;
    if inputs == [] {
      NothingRunsAtFirst(s);
    } else {
      RunIsSound(s, inputs[..|inputs| - 1]);
      RunShowsWork(s, inputs[..|inputs| - 1]);
      DisjointStep(Run(s, inputs[..|inputs| - 1]), inputs[|inputs| - 1]);
      WorkStep(Run(s, inputs[..|inputs| - 1]), inputs[|inputs| - 1]);
    }
  }

  /** With jobs that share no candidates, the methods in progress are at every moment exactly those in the current
      batches of the running jobs that were taken up since the database was last opened: a job that goes on after the
      editor has been closed and opened again is shown from its next batch on. */
  lemma ProgressIsTheCurrentBatches(s: System, inputs: seq<Input>)
    requires AllMeaningful(inputs) && Initial(s) && DisjointStarts(s, inputs)
    ensures var r := Run(s, inputs);
      r.db.Some? ==> forall m :: m in InProgress(r) <==> exists p :: m in Working(r, p)
  {
    hide Run, DisjointStarts, Disjoint, Working, InProgress;
    RunShowsWorked(s, inputs);
    RunShowsWork(s, inputs);
  }

  /** As long as the database is not opened again, these are all current batches. */
  lemma {:induction false} WorkingIsTheCurrentBatch(s: System, inputs: seq<Input>, p: Slot)
    requires AllMeaningful(inputs) && Initial(s) && forall i | 0 <= i < |inputs| :: inputs[i] != Reopen
    requires p in Run(s, inputs).jobs
    ensures Working(Run(s, inputs), p) == Signatures(CurrentBatch(Run(s, inputs).jobs[p]))
  {
    hide Run, Signatures;
    RunWithoutReopen(s, inputs);
    NoSignatures();
  }

  /** A batch that a job works on was taken up in the present opening. */
  ghost predicate BusyIsShown(s: System) {
    forall p | p in s.jobs && Busy(s.jobs[p]) :: s.jobs[p].shown == s.opening
  }

  lemma ShownStep(s: System, input: Input)
    requires Meaningful(input) && input != Reopen && BusyIsShown(s)
    ensures BusyIsShown(Step(s, input))
  {
    hide Number, CurrentBatch, Signatures, Receive, Merge, NewJob, IsValidFile;
    if input.Start? {
      NewJobWaits(input);
    }
  }

  lemma {:induction false} RunWithoutReopen(s: System, inputs: seq<Input>)
    requires AllMeaningful(inputs) && Initial(s) && forall i | 0 <= i < |inputs| :: inputs[i] != Reopen
    ensures BusyIsShown(Run(s, inputs))
    decreases |inputs|
  {
    hide Step, Meaningful, BusyIsShown;
    if inputs == [] {
      NothingRunsAtFirst(s);
    } else {
      RunWithoutReopen(s, inputs[..|inputs| - 1]);
      ShownStep(Run(s, inputs[..|inputs| - 1]), inputs[|inputs| - 1]);
    }
  }

  /** However a job ended (done, stopped, failed, or with its database closed), it leaves none of its candidates
      in progress. */
  lemma NothingIsLeftInProgress(s: System, inputs: seq<Input>, p: Slot)
    requires AllMeaningful(inputs) && Initial(s) && DisjointStarts(s, inputs)
    requires p in Run(s, inputs).jobs && Run(s, inputs).jobs[p].phase == Leaving
    ensures Signatures(Run(s, inputs).jobs[p].candidates) !! InProgress(Run(s, inputs))
  {
    hide Run, DisjointStarts, Signatures;
    var r := Run(s, inputs);
    RunShowsWorked(s, inputs);
    RunShowsWork(s, inputs);
    NoSignatures();
    forall m | m in InProgress(r)
      ensures m !in Signatures(r.jobs[p].candidates)
    {
      var q :| m in Working(r, q);
      PartSignatures(CurrentBatch(r.jobs[q]), r.jobs[q].candidates);
    }
  }

  /** Whether or not the jobs share candidates: the step that ends the loop of a job clears all its candidates, and
      once no job is left nothing is in progress. */
  lemma EndClears(s: System, input: Input, p: Slot)
    requires Meaningful(input) && Resumption(s, input, p)
    ensures var r := Step(s, input);
      p in r.jobs && (r.jobs[p].phase == Leaving ==> Signatures(s.jobs[p].candidates) !! InProgress(r))
  {
    hide Step, Meaningful, Signatures;
    StepResumes(s, input, p);
    NoSignatures();
  }

  lemma IdleShowsNothing(s: System, inputs: seq<Input>)
    requires AllMeaningful(inputs) && Initial(s) && Run(s, inputs).jobs == map[]
    ensures InProgress(Run(s, inputs)) == {}
  {
    hide Run;
    RunShowsWorked(s, inputs);
  }

  // ---------------------------------------------------------------------------
  // Models

  /** The candidates of the batches that are through */
  function Done(j: Job): seq<Method> {
    var k := j.batch + if j.phase == Answered then 1 else 0;
    if j.size > 0 then Batches(j.candidates, j.size, k) else []
  }

  /** The user leaves a method without a model, or the models in the files, which replace all others, have none. */
  predicate Unmodels(input: Input, signature: string) {
    || (input.Edit? && input.signature == signature && !HasModel(input.models))
    || (input.ReplaceAll? && !IsModeled(input.replacement, signature))
  }

  ghost predicate LeftUnmodeled(inputs: seq<Input>, signature: string) {
    exists i :: 0 <= i < |inputs| && Unmodels(inputs[i], signature)
  }

  ghost predicate ModeledOr(db: DbState, inputs: seq<Input>, signature: string) {
    IsModeled(db.modeledMethods, signature) || LeftUnmodeled(inputs, signature)
  }

  ghost predicate AllModeled(ms: seq<Method>, db: DbState, inputs: seq<Input>) {
    forall m | m in ms :: ModeledOr(db, inputs, m.signature)
  }

  /** The candidates of all batches that a job has had in the present opening of the database are modeled. */
  ghost predicate Covered(s: System, inputs: seq<Input>) {
    s.db.Some? ==> forall p | p in s.jobs && !s.jobs[p].missed && s.jobs[p].begun == s.opening ::
      AllModeled(Done(s.jobs[p]), s.db.value, inputs)
  }

  /** The input takes these models of a method away, or replaces them by others. */
  predicate Disturbs(input: Input, signature: string, models: seq<ModeledMethod>) {
    || input.Close? || input.Reopen?
    || (input.Edit? && input.signature == signature && input.models != models)
    || (input.ReplaceAll? && (signature in input.replacement ==> input.replacement[signature] != models))
  }

  predicate HoldsModels(s: System, signature: string, models: seq<ModeledMethod>) {
    s.db.Some? && signature in s.db.value.modeledMethods && s.db.value.modeledMethods[signature] == models
  }

  /** A step keeps the models of a method that is modeled if and only if it does not close or open the database, is
      not an edit of this method, and does not replace all models by others. */
  lemma ModelsAreKept(s: System, input: Input, signature: string, models: seq<ModeledMethod>)
    requires Meaningful(input)
    requires HoldsModels(s, signature, models) && HasModel(models)
    ensures HoldsModels(Step(s, input), signature, models) <==> !Disturbs(input, signature, models)
  {
    hide Batch, BatchNumber, Signatures, NewJob, Filled, Loaded, HasModel;
  }

  /** ... in any run. */
  lemma {:induction false} ModelsAreKeptInRuns(s: System, inputs: seq<Input>, signature: string,
                                               models: seq<ModeledMethod>)
    requires AllMeaningful(inputs)
    requires HoldsModels(s, signature, models) && HasModel(models)
    requires forall i | 0 <= i < |inputs| :: !Disturbs(inputs[i], signature, models)
    ensures HoldsModels(Run(s, inputs), signature, models)
    decreases |inputs|
  {
    hide Step, Meaningful, HoldsModels, Disturbs, HasModel;
    if inputs != [] {
      var front, last := inputs[..|inputs| - 1], inputs[|inputs| - 1];
      ModelsAreKeptInRuns(s, front, signature, models);
      ModelsAreKept(Run(s, front), last, signature, models);
    }
  }

  lemma ClosedStaysClosed(s: System, input: Input)
    requires Meaningful(input)
    ensures Step(s, input).db.Some? && input != Reopen ==> s.db.Some?
    ensures Step(s, input).opening == if input == Reopen then s.opening + 1 else s.opening
  {
    hide Batch, BatchNumber, Signatures, NewJob, Filled, Loaded, Merge;
  }

  /** What the models for a batch add to the store. */
  lemma ResponseModelsTheBatch(s: System, p: Slot, extensions: seq<Extension>)
    requires p in s.jobs && s.jobs[p].phase == Modeling && s.db.Some? && IsValidFile(extensions)
    ensures var r := Step(s, Settle(p, Response(extensions)));
      var before, batch, loaded := s.db.value.modeledMethods, CurrentBatch(s.jobs[p]), Loaded(extensions);
      && r.db.Some?
      && var after := r.db.value.modeledMethods;
      && (forall c | c in batch :: IsModeled(after, c.signature))
      && (forall m | IsModeled(before, m) :: m in after && after[m] == before[m])
      && (forall m | !IsModeled(before, m) && m in loaded :: m in after && after[m] == loaded[m])
      && (forall m | !IsModeled(before, m) && m !in loaded && m in after ::
            exists c | c in batch :: c.signature == m && after[m] == [NeutralSink(c)])
      && r.db.value.modifiedMethodSignatures ==
         s.db.value.modifiedMethodSignatures + loaded.Keys + Signatures(batch)
  {
    hide IsModeled, Loaded, Filled, CurrentBatch, Merge;
    var batch := CurrentBatch(s.jobs[p]);
    AddedBatch(s.db.value.modeledMethods, extensions, batch);
    FilledIsComplete(Loaded(extensions), batch);
  }

  lemma LeftUnmodeledPush(inputs: seq<Input>, input: Input, signature: string)
    ensures LeftUnmodeled(inputs + [input], signature) <==>
            LeftUnmodeled(inputs, signature) || Unmodels(input, signature)
  {
    hide Unmodels;
    var all := inputs + [input];
    assert all[|inputs|] == input;
    if i :| 0 <= i < |inputs| && Unmodels(inputs[i], signature) {
      assert all[i] == inputs[i];
    }
    if i :| 0 <= i < |all| && Unmodels(all[i], signature) && i < |inputs| {
      assert inputs[i] == all[i];
    }
  }

  lemma StaysModeled(s: System, input: Input, signature: string)
    requires Meaningful(input) && input != Reopen && s.db.Some? && Step(s, input).db.Some?
    requires IsModeled(s.db.value.modeledMethods, signature)
    ensures IsModeled(Step(s, input).db.value.modeledMethods, signature) || Unmodels(input, signature)
  {
    hide Step, Meaningful, HasModel;
    var models := s.db.value.modeledMethods[signature];
    if input.Edit? || input.ReplaceAll? {
      EditStep(s, input);
    } else if input == Close {
      OpeningStepCloses(s);
    } else {
      ModelsAreKept(s, input, signature, models);
    }
  }

  lemma OpeningStepCloses(s: System)
    ensures Step(s, Close).db.None?
  {
  }

  lemma AllStayModeled(ms: seq<Method>, s: System, input: Input, inputs: seq<Input>)
    requires Meaningful(input) && input != Reopen && s.db.Some? && Step(s, input).db.Some?
    requires AllModeled(ms, s.db.value, inputs)
    ensures AllModeled(ms, Step(s, input).db.value, inputs + [input])
  {
    hide Step, Meaningful, HasModel, LeftUnmodeled, IsModeled, Unmodels;
    forall m | m in ms
      ensures ModeledOr(Step(s, input).db.value, inputs + [input], m.signature)
    {
      LeftUnmodeledPush(inputs, input, m.signature);
      if IsModeled(s.db.value.modeledMethods, m.signature) {
        StaysModeled(s, input, m.signature);
      }
    }
  }

  lemma EditStep(s: System, input: Input)
    requires (input.Edit? || input.ReplaceAll?) && s.db.Some?
    ensures var r := Step(s, input);
      && r.db.Some?
      && r.db.value.modeledMethods == if input.Edit? then s.db.value.modeledMethods[input.signature := input.models]
                                      else input.replacement
  {
  }

  /** The batches that are through grow only when a response for the current batch comes in. */
  lemma DoneStep(s: System, input: Input, p: Slot)
    requires Meaningful(input) && Sound(s) && p in s.jobs && p in Step(s, input).jobs
    requires s.db.Some? && input != Reopen && Step(s, input).db.Some? && !Step(s, input).jobs[p].missed
    ensures !s.jobs[p].missed
    ensures var j, j' := s.jobs[p], Step(s, input).jobs[p];
      || (Done(j') == Done(j) && j'.begun == j.begun)
      || Done(j') == []
      || (input.Settle? && input.outcome.Response? && input.slot == p && j.phase == Modeling
          && IsValidFile(input.outcome.extensions) && Done(j') == Done(j) + CurrentBatch(j) && j'.begun == j.begun)
  {
    hide BatchNumber, CurrentBatch, Batches, Signatures, Receive, NewJob, IsValidFile;
    NoBatches(s.jobs[p]);
    if input.Settle? && input.slot == p && s.jobs[p].phase == Modeling && input.outcome.Response? {
      ResponseIsDone(s.jobs[p]);
    }
  }

  lemma NoBatches(j: Job)
    ensures j.size > 0 ==> Batches(j.candidates, j.size, 0) == []
  {
  }

  lemma ResponseIsDone(j: Job)
    requires j.size > 0 && j.batch >= 0 && j.phase == Modeling
    ensures Done(j.(phase := Answered)) == Done(j) + CurrentBatch(j)
  {
    hide Batch;
  }

  lemma CoveredStep(s: System, input: Input, inputs: seq<Input>)
    requires Meaningful(input) && Sound(s) && Covered(s, inputs)
    ensures Covered(Step(s, input), inputs + [input])
  {
    hide Step, Meaningful, Done, CurrentBatch, ModeledOr, JobSound;
    var r := Step(s, input);
    ClosedStaysClosed(s, input);
    if input == Reopen {
      ReopenedStep(s);
    } else if r.db.Some? {
      forall p | p in r.jobs && !r.jobs[p].missed && r.jobs[p].begun == r.opening
        ensures AllModeled(Done(r.jobs[p]), r.db.value, inputs + [input])
      {
        CoveredJob(s, input, inputs, p);
      }
    }
  }

  lemma ReopenedStep(s: System)
    requires Sound(s)
    ensures var r := Step(s, Reopen); forall p | p in r.jobs :: r.jobs[p].begun < r.opening
  {
    hide Number;
  }

  lemma CoveredJob(s: System, input: Input, inputs: seq<Input>, p: Slot)
    requires Meaningful(input) && input != Reopen && Sound(s) && Covered(s, inputs)
    requires var r := Step(s, input);
      && s.db.Some? && r.db.Some? && r.opening == s.opening
      && p in r.jobs && !r.jobs[p].missed && r.jobs[p].begun == r.opening
    ensures AllModeled(Done(Step(s, input).jobs[p]), Step(s, input).db.value, inputs + [input])
  {
    hide Step, Meaningful, Sound, Done, CurrentBatch, ModeledOr;
    OneJobPerPackage(s, input, p);
    if p in s.jobs {
      DoneStep(s, input, p);
      if Done(Step(s, input).jobs[p]) != [] {
        AllStayModeled(Done(s.jobs[p]), s, input, inputs);
        if input.Settle? && input.outcome.Response? && input.slot == p && s.jobs[p].phase == Modeling
           && IsValidFile(input.outcome.extensions)
        {
          ResponseModelsTheBatch(s, p, input.outcome.extensions);
          ModeledIsModeledOr(CurrentBatch(s.jobs[p]), Step(s, input).db.value, inputs + [input]);
        }
      }
    } else {
      NothingDone(input);
    }
  }

  lemma ModeledIsModeledOr(ms: seq<Method>, db: DbState, inputs: seq<Input>)
    requires forall m | m in ms :: IsModeled(db.modeledMethods, m.signature)
    ensures AllModeled(ms, db, inputs)
  {
    hide IsModeled, LeftUnmodeled;
  }

  lemma NothingDone(input: Input)
    requires Meaningful(input) && input.Start?
    ensures Done(NewJob(input)) == []
  {
    hide CandidatesOf, InUiOrder;
  }

  lemma {:induction false} RunIsCovered(s: System, inputs: seq<Input>)
    requires AllMeaningful(inputs) && Initial(s)
    ensures Covered(Run(s, inputs), inputs)
    decreases |inputs|
  {
    hide Step, Meaningful, Covered, Sound;
    if inputs == [] {
      NothingRunsAtFirst(s);
    } else {
      var front, last := inputs[..|inputs| - 1], inputs[|inputs| - 1];
      assert inputs == front + [last];
      RunIsCovered(s, front);
      RunIsSound(s, front);
      CoveredStep(Run(s, front), last, front);
    }
  }

  /** A job that went through its loop in one opening of the database, without being stopped, and got the models for
      each of its batches, leaves nothing to do: whatever methods are offered, none of its candidates is a candidate
      again, unless the user or a load of all models has left it without a model.  (With a negative batch size no
      batch is ever made.) */
  lemma CompleteJobLeavesNoCandidates(s: System, inputs: seq<Input>, p: Slot, methods: seq<Method>)
    requires AllMeaningful(inputs) && Initial(s)
    requires var r := Run(s, inputs);
      && r.db.Some? && p in r.jobs && r.jobs[p].begun == r.opening
      && r.jobs[p].phase == Leaving && !r.jobs[p].cancelled && !r.jobs[p].missed && r.jobs[p].size > 0
    ensures var r := Run(s, inputs);
      && Done(r.jobs[p]) == r.jobs[p].candidates
      && forall m | m in CandidatesOf(methods, r.db.value.modeledMethods)
                    && m.signature in Signatures(r.jobs[p].candidates) ::
            LeftUnmodeled(inputs, m.signature)
  {
    hide Run, LeftUnmodeled, IsModeled, BatchNumber, Batches, CandidatesOf;
    var r := Run(s, inputs);
    var j := r.jobs[p];
    RunIsSound(s, inputs);
    RunIsCovered(s, inputs);
    assert JobSound(j, r.opening);
    BatchNumberIsCeiling(|j.candidates|, j.size);
    BatchesAreAPrefix(j.candidates, j.size, j.batch);
    EnoughBatches(j.candidates, j.size, j.batch, Number(j));
    assert AllModeled(j.candidates, r.db.value, inputs);
    forall m | m in CandidatesOf(methods, r.db.value.modeledMethods) && m.signature in Signatures(j.candidates)
      ensures LeftUnmodeled(inputs, m.signature)
    {
      var i :| 0 <= i < |j.candidates| && j.candidates[i].signature == m.signature;
      assert j.candidates[i] in j.candidates;
      CandidatesAre(methods, r.db.value.modeledMethods, m);
    }
  }

  lemma EnoughBatches(candidates: seq<Method>, size: int, k: nat, b: nat)
    requires size > 0 && k >= b && b * size >= |candidates|
    ensures k * size >= 0 && Take(candidates, k * size) == candidates
  {
    assert (k - b) * size >= 0;
    assert k * size == (k - b) * size + b * size;
  }

  // ---------------------------------------------------------------------------
  // The auto-modeler object

  function ListSignatures(ms: seq<Method>): (r: seq<string>)
    ensures AsSet(r) == Signatures(ms)
  {
    var r := seq(|ms|, i requires 0 <= i < |ms| => ms[i].signature);
    ListIsSet(r, ms);
    r
  }

  lemma ListIsSet(r: seq<string>, ms: seq<Method>)
    requires |r| == |ms| && forall i | 0 <= i < |ms| :: r[i] == ms[i].signature
    ensures AsSet(r) == Signatures(ms)
  {
    forall s | s in Signatures(ms)
      ensures s in AsSet(r)
    {
      var i :| 0 <= i < |ms| && ms[i].signature == s;
      assert r[i] == s;
    }
  }

  /** The jobs of one auto-modeler, with their slots */
  function Slots(jobs: map<string, Job>, editor: nat): map<Slot, Job> {
    map p | p in jobs :: Slot(editor, p) := jobs[p]
  }

  lemma SlotsUpdate(jobs: map<string, Job>, editor: nat, package: string, job: Job)
    ensures Slots(jobs[package := job], editor) == Slots(jobs, editor)[Slot(editor, package) := job]
    ensures Slot(editor, package) in Slots(jobs, editor) <==> package in jobs
    ensures package in jobs ==> Slots(jobs, editor)[Slot(editor, package)] == jobs[package]
  {
  }

  lemma SlotsRemove(jobs: map<string, Job>, editor: nat, package: string)
    ensures Slots(jobs - {package}, editor) == Slots(jobs, editor) - {Slot(editor, package)}
  {
  }

  lemma SlotsHave(jobs: map<string, Job>, editor: nat, package: string)
    ensures Slot(editor, package) in Slots(jobs, editor) <==> package in jobs
  {
  }

  lemma NoSlots(editor: nat)
    ensures Slots(map[], editor) == map[]
  {
  }

  lemma SlotsCancelled(jobs: map<string, Job>, editor: nat)
    ensures Slots(map p | p in jobs :: jobs[p].(cancelled := true), editor) == CancelAll(Slots(jobs, editor), editor)
  {
  }

  /** What these jobs and the store make up */
  ghost function SystemOf(jobs: map<Slot, Job>, modelingStore: ModelingStore, databaseItem: string): System
    reads modelingStore
  {
    System(jobs,
           if databaseItem in modelingStore.state then Some(modelingStore.state[databaseItem]) else None,
           Openings(modelingStore.openings, databaseItem))
  }

  class AutoModeler {
    const databaseItem: string
    const modelingStore: ModelingStore
    const editor: nat
    var jobs: map<string, Job>

    ghost function View(): System
      reads this, modelingStore
    {
      SystemOf(Slots(jobs, editor), modelingStore, databaseItem)
    }

    function SlotFor(package: string): Slot {
      Slot(editor, package)
    }

    /** The state of the other databases */
    ghost function Others(): map<string, DbState>
      reads this, modelingStore
    {
      modelingStore.state - {databaseItem}
    }

    constructor (databaseItem: string, modelingStore: ModelingStore, editor: nat)
      ensures this.databaseItem == databaseItem && this.modelingStore == modelingStore && this.editor == editor
      ensures jobs == map[]
    {
      this.databaseItem, this.modelingStore, this.editor, jobs := databaseItem, modelingStore, editor, map[];
    }

    /** `startModeling`, up to the beginning of its progress task */
    method StartModeling(package: string, methods: seq<Method>, modeledMethods: ModeledMethods, order: UiOrder,
                         setting: Option<int>)
      requires Sorts(order)
      modifies this
      ensures View() == Step(old(View()), Start(SlotFor(package), methods, modeledMethods, order, setting))
      ensures Others() == old(Others())
    {
      hide Slots, InUiOrder, CandidatesOf, IsCandidate;
      SlotsHave(jobs, editor, package);
      if package in jobs {
        return;
      }
      var candidates := GetCandidates(methods, modeledMethods, order);
      var job := Job(candidates, BatchSize(setting), false, Waiting, 0, false, 0, 0);
      SlotsUpdate(jobs, editor, package, job);
      jobs := jobs[package := job];
    }

    method StopModeling(package: string)
      modifies this
      ensures View() == Step(old(View()), Stop(SlotFor(package))) && Others() == old(Others())
    {
      if package in jobs {
        var job := jobs[package].(cancelled := true);
        SlotsUpdate(jobs, editor, package, job);
        jobs := jobs[package := job];
      }
    }

    method StopAllModeling()
      modifies this
      ensures View() == Step(old(View()), StopAll(editor)) && Others() == old(Others())
    {
      SlotsCancelled(jobs, editor);
      jobs := map p | p in jobs :: jobs[p].(cancelled := true);
    }

    /** `modelPackage`, from the beginning of its progress task to its first await */
    method BeginModelPackage(package: string)
      requires package in jobs && jobs[package].phase == Waiting
      modifies this, modelingStore`state
      ensures View() == Step(old(View()), Begin(SlotFor(package))) && Others() == old(Others())
    {
      hide Slots, Advance;
      var job := jobs[package];
      if job.candidates == [] {
        SlotsUpdate(jobs, editor, package, job.(phase := Leaving));
        jobs := jobs[package := job.(phase := Leaving)];
      } else {
        job := job.(begun := Openings(modelingStore.openings, databaseItem));
        SlotsUpdate(jobs, editor, package, job);
        jobs := jobs[package := job];
        ModelBatch(package, 0);
      }
    }

    /** The loop of `modelPackage`, from the head of round `i` to the await or to the end of the loop */
    method ModelBatch(package: string, i: int)
      requires package in jobs
      modifies this, modelingStore`state
      ensures View() == Advance(old(View()), SlotFor(package), i) && Others() == old(Others())
    {
      hide Slots, Batch, BatchNumber, Signatures, EndLoop;
      var job := jobs[package].(phase := Modeling, batch := i,
                                shown := Openings(modelingStore.openings, databaseItem));
      SlotsUpdate(jobs, editor, package, job);
      var thrown := false;
      if i < Number(job) && !job.cancelled {
        var ok := modelingStore.AddInProgressMethods(databaseItem, ListSignatures(CurrentBatch(job)));
        if ok {
          jobs := jobs[package := job];
          return;
        }
        thrown := true;
      }
      LeaveLoop(package, i, thrown);
    }

    /** The `finally` block of `modelPackage` */
    method LeaveLoop(package: string, i: int, thrown: bool)
      requires package in jobs
      modifies this, modelingStore`state
      ensures View() == EndLoop(old(View()), SlotFor(package), i, thrown) && Others() == old(Others())
    {
      hide Slots, Signatures;
      var job := jobs[package];
      var _ := modelingStore.RemoveInProgressMethods(databaseItem, ListSignatures(job.candidates));
      job := job.(phase := Leaving, batch := i, missed := job.missed || thrown);
      SlotsUpdate(jobs, editor, package, job);
      jobs := jobs[package := job];
    }

    /** The loop that adds a neutral model for each candidate that the response does not mention */
    method FillNeutral(loaded: ModeledMethods, candidateMethods: seq<Method>) returns (loadedMethods: ModeledMethods)
      ensures loadedMethods == Filled(loaded, candidateMethods)
    {
      hide NeutralSink;
      loadedMethods := loaded;
      for n := 0 to |candidateMethods|
        invariant loadedMethods == Filled(loaded, candidateMethods[..n])
      {
        var candidate := candidateMethods[n];
        assert candidateMethods[..n + 1][..n] == candidateMethods[..n];
        if candidate.signature !in loadedMethods {
          loadedMethods := loadedMethods[candidate.signature := [NeutralSink(candidate)]];
        }
      }
      assert candidateMethods[..|candidateMethods|] == candidateMethods;
    }

    /** `modelCandidates`, from the answers to its requests to its end */
    method EndModelCandidates(package: string, outcome: Outcome)
      requires package in jobs && jobs[package].phase == Modeling
      modifies this, modelingStore`state
      ensures View() == Step(old(View()), Settle(SlotFor(package), outcome)) && Others() == old(Others())
    {
      hide Slots, Number, Batch, Signatures, Filled, Groups.Keys, Groups.Filter, ReadAll, Merge, IsValidFile;
      var job := jobs[package];
      SlotsUpdate(jobs, editor, package, job);
      match outcome {
      case NoResult =>
        job := job.(phase := Answered, missed := true);
      case Throws =>
        job := job.(phase := Failed, missed := true);
      case Response(extensions) =>
        var ok, response := LoadDataExtension(extensions);
        var loadedMethods := map[];
        if ok {
          loadedMethods := FillNeutral(response.entries, CurrentBatch(job));
          ok := modelingStore.AddModeledMethods(databaseItem, loadedMethods);
        }
        if ok {
          ok := modelingStore.AddModifiedMethods(databaseItem, loadedMethods.Keys);
          job := job.(phase := Answered);
        } else {
          job := job.(phase := Failed, missed := true);
        }
      }
      SlotsUpdate(jobs, editor, package, job);
      jobs := jobs[package := job];
    }

    /** `modelPackage`, from the end of `modelCandidates` to the next await */
    method ContinueModelPackage(package: string)
      requires package in jobs && jobs[package].phase in {Answered, Failed}
      modifies this, modelingStore`state
      ensures View() == Step(old(View()), Continue(SlotFor(package))) && Others() == old(Others())
    {
      hide Slots, Number, Batch, Signatures, EndLoop, Advance;
      var job := jobs[package];
      SlotsUpdate(jobs, editor, package, job);
      if job.phase == Answered {
        var ok := modelingStore.RemoveInProgressMethods(databaseItem, ListSignatures(CurrentBatch(job)));
        if ok {
          ModelBatch(package, job.batch + 1);
          return;
        }
      }
      LeaveLoop(package, job.batch, true);
    }

    /** The `finally` block of `startModeling` */
    method EndModeling(package: string)
      requires package in jobs && jobs[package].phase == Leaving
      modifies this
      ensures View() == Step(old(View()), Leave(SlotFor(package))) && Others() == old(Others())
    {
      hide Slots;
      SlotsUpdate(jobs, editor, package, jobs[package]);
      SlotsRemove(jobs, editor, package);
      jobs := jobs - {package};
    }
  }

  /** The part of `ModelEditorView` (extensions/ql-vscode/src/model-editor/model-editor-view.ts) that changes the store
      beside its auto-modeler */
  class ModelEditorView {
    const autoModeler: AutoModeler

    /** Opening a view gives its database a blank state, even if jobs of an older view still run (`StepIsLocal`), and
        makes an auto-modeler without jobs. */
    constructor (databaseItem: string, modelingStore: ModelingStore)
      modifies modelingStore
      ensures fresh(autoModeler) && autoModeler.databaseItem == databaseItem
      ensures autoModeler.modelingStore == modelingStore && autoModeler.editor == autoModeler.View().opening
      ensures Initial(autoModeler.View()) && autoModeler.View().db == Some(BLANK)
      ensures autoModeler.View() == Step(old(SystemOf(map[], modelingStore, databaseItem)), Reopen)
      ensures modelingStore.state - {databaseItem} == old(modelingStore.state) - {databaseItem}
    {
      hide Slots, Step;
      OpeningStep(SystemOf(map[], modelingStore, databaseItem), Reopen);
      modelingStore.InitializeStateForDb(databaseItem);
      autoModeler :=
        new AutoModeler(databaseItem, modelingStore, Openings(modelingStore.openings, databaseItem));
      NoSlots(Openings(modelingStore.openings, databaseItem));
    }

    /** `setModeledMethods` of the view: the user models one method. */
    method SetModeledMethods(signature: string, methods: seq<ModeledMethod>)
      modifies autoModeler.modelingStore`state
      ensures autoModeler.View() == Step(old(autoModeler.View()), Edit(signature, methods))
      ensures autoModeler.Others() == old(autoModeler.Others())
    {
      hide Slots;
      var store := autoModeler.modelingStore;
      var ok := store.UpdateModeledMethods(autoModeler.databaseItem, signature, methods);
      if ok {
        ok := store.AddModifiedMethods(autoModeler.databaseItem, {signature});
      }
    }

    method AddModeledMethods(modeledMethods: ModeledMethods)
      modifies autoModeler.modelingStore`state
      ensures autoModeler.View() == Step(old(autoModeler.View()), AddModels(modeledMethods))
      ensures autoModeler.Others() == old(autoModeler.Others())
    {
      hide Merge, Slots;
      var store := autoModeler.modelingStore;
      var ok := store.AddModeledMethods(autoModeler.databaseItem, modeledMethods);
      if ok {
        ok := store.AddModifiedMethods(autoModeler.databaseItem, modeledMethods.Keys);
      }
    }

    /** `loadExistingModeledMethods`: the models in the files replace all others, unless the files cannot be
        loaded. */
    method LoadExistingModeledMethods(extensionPack: ExtensionPack, listed: seq<string>)
      requires Groups.Distinct(listed)
      modifies autoModeler.modelingStore`state
      ensures autoModeler.View() ==
              if Loadable(extensionPack.files, extensionPack.locate, listed) then
                Step(old(autoModeler.View()),
                     ReplaceAll(Grouped(ReadFiles(extensionPack.files, extensionPack.locate, listed)).entries))
              else old(autoModeler.View())
      ensures autoModeler.Others() == old(autoModeler.Others())
    {
      hide Grouped, ReadFiles, IsValidFile, Slots;
      var ok, modeledMethods := extensionPack.LoadModeledMethods(listed);
      if ok {
        ok := autoModeler.modelingStore.SetModeledMethods(autoModeler.databaseItem, modeledMethods.entries);
      }
    }

    /** `onDidDispose`: closing the panel closes the database. */
    method OnDidDispose() returns (ok: bool)
      modifies autoModeler.modelingStore`state
      ensures autoModeler.View() == Step(old(autoModeler.View()), Close)
      ensures autoModeler.Others() == old(autoModeler.Others())
      ensures ok == old(autoModeler.View()).db.Some?
    {
      ok := autoModeler.modelingStore.RemoveDb(autoModeler.databaseItem);
    }
  }
}
