/** The debug adapter session (extensions/ql-vscode/src/debugger/debug-session.ts).

    Every request handler, and every stretch of an asynchronous function between two awaits, is one atomic
    step.  `Step` gives the effect of each step on the value of a session; the class `QLDebugSession` performs
    it on fields; the lemmas are about `Run`, all steps of all runs. */
module DebugSession {
  import opened Wrappers

  datatype State = Uninitialized | Initialized | Running | Stopped | Terminated

  /** The query server's result types are numbers; any unknown one counts as an error. */
  type ResultType = int
  const SUCCESS: ResultType := 0
  const CANCELLATION: ResultType := 4

  /** What the adapter sends to its client. */
  datatype Message =
    | Response(ok: bool)
    | InitializedEvent
    | EvaluationStarted(id: nat)
    | ProgressStart(id: nat)
    | ProgressUpdate(id: nat)
    | ProgressEnd(id: nat)
    | LogOutput                                        // output through the logger of the query
    | EvaluationCompleted(id: nat, result: ResultType)
    | ResultOutput                                     // the failure message of a completed evaluation
    | StoppedEvent
    | ContinuedEvent
    | TerminatedEvent
    | ExitedEvent(exitCode: ResultType)

  /** A call of `evaluate` that has not returned: whether its cancellation was requested, and the result of the
      query once it has settled but before the continuation of `evaluate` has run. */
  datatype Evaluation = Evaluation(id: nat, cancelled: bool, settled: Option<ResultType>)

  datatype Session = Session(
    state: State,
    terminateOnComplete: bool,
    runningQuery: Option<nat>,
    lastResultType: ResultType,
    nextId: nat,
    inFlight: seq<Evaluation>,
    sent: seq<Message>)

  datatype Input =
    | Initialize
    | Launch(noDebug: bool)
    | StepRequest                     // next, stepIn, stepOut and stepBack
    | Continue
    | QuickEval
    | Terminate
    | Disconnect
    | Cancel(progressId: Option<nat>)
    | Threads
    | Dispose
    | QueryProgress(id: nat)          // a progress callback of the query run with that id
    | QueryLog                        // a log call of any query run
    | QuerySettles(k: nat, result: ResultType)   // the k-th evaluation in flight gets its result or fails
    | EvaluationContinues(k: nat)     // ... and `evaluate` resumes after its await

  predicate IsRequest(input: Input) {
    match input
    case Dispose => false
    case QueryProgress(_) => false
    case QueryLog => false
    case QuerySettles(_, _) => false
    case EvaluationContinues(_) => false
    case _ => true
  }

  const FRESH := Session(Uninitialized, false, None, CANCELLATION, 0, [], [])

  function Send(s: Session, m: Message): Session {
    s.(sent := s.sent + [m])
  }

  /** Events and log output of a query are dropped once the session has disconnected from it. */
  function SendIfConnected(s: Session, m: Message): Session {
    if s.runningQuery.Some? then Send(s, m) else s
  }

  function CancelQuery(flights: seq<Evaluation>, id: nat): (r: seq<Evaluation>)
    ensures |r| == |flights|
  {
    seq(|flights|, i requires 0 <= i < |flights| =>
      if flights[i].id == id then flights[i].(cancelled := true) else flights[i])
  }

  function CancelRunning(s: Session): Session {
    if s.runningQuery.Some? then s.(inFlight := CancelQuery(s.inFlight, s.runningQuery.value)) else s
  }

  /** `evaluate` up to its first await. */
  function StartEvaluation(s: Session): Session {
    var s1 := s.(runningQuery := Some(s.nextId), state := Running, nextId := s.nextId + 1,
                 inFlight := s.inFlight + [Evaluation(s.nextId, false, None)]);
    SendIfConnected(SendIfConnected(s1, EvaluationStarted(s.nextId)), ProgressStart(s.nextId))
  }

  function TerminateAndExit(s: Session): Session {
    Send(Send(s, TerminatedEvent), ExitedEvent(s.lastResultType)).(state := Terminated)
  }

  function ReportStopped(s: Session): Session {
    if s.terminateOnComplete then TerminateAndExit(s) else Send(s, StoppedEvent).(state := Stopped)
  }

  function CompleteEvaluation(s: Session, id: nat, result: ResultType): Session {
    var s1 := Send(s.(lastResultType := result), EvaluationCompleted(id, result));
    ReportStopped(if result != SUCCESS then Send(s1, ResultOutput) else s1)
  }

  function TerminateOrDisconnect(s: Session, force: bool): Session {
    var s1 := if force then s.(runningQuery := None) else s;
    var s2 :=
      if s.runningQuery.Some? then
        s1.(terminateOnComplete := true, inFlight := CancelQuery(s.inFlight, s.runningQuery.value))
      else if s1.state == Stopped then TerminateAndExit(s1)
      else s1;
    Send(s2, Response(true))
  }

  function Step(s: Session, input: Input): Session {
    match input
    case Initialize =>
      if s.state == Uninitialized then Send(Send(s.(state := Initialized), Response(true)), InitializedEvent)
      else Send(s, Response(false))
    case Launch(noDebug) =>
      if s.state == Initialized then StartEvaluation(Send(s.(terminateOnComplete := noDebug), Response(true)))
      else Send(s, Response(false))
    case StepRequest =>
      if s.state == Stopped then ReportStopped(Send(s, Response(true))) else Send(s, Response(false))
    case Continue =>
      if s.state == Stopped then StartEvaluation(Send(s, Response(true))) else Send(s, Response(false))
    case QuickEval =>
      if s.state == Stopped then StartEvaluation(Send(Send(s, Response(true)), ContinuedEvent))
      else Send(s, Response(false))
    case Terminate => TerminateOrDisconnect(s, false)
    case Disconnect => TerminateOrDisconnect(s, true)
    case Cancel(progressId) =>
      Send(if progressId.Some? && s.runningQuery == progressId then CancelRunning(s) else s, Response(true))
    case Threads => Send(s, Response(true))
    case Dispose => CancelRunning(s)
    case QueryProgress(id) => SendIfConnected(s, ProgressUpdate(id))
    case QueryLog => SendIfConnected(s, LogOutput)
    case QuerySettles(k, result) =>
      if k < |s.inFlight| && s.inFlight[k].settled.None? then
        var e := s.inFlight[k];
        SendIfConnected(s.(inFlight := s.inFlight[k := e.(settled := Some(result))]), ProgressEnd(e.id))
      else s
    case EvaluationContinues(k) =>
      if k < |s.inFlight| && s.inFlight[k].settled.Some? then
        var e := s.inFlight[k];
        CompleteEvaluation(s, e.id, e.settled.value)
        .(runningQuery := None, inFlight := s.inFlight[..k] + s.inFlight[k + 1..])
      else s
  }

  function Run(s: Session, inputs: seq<Input>): Session {
    if inputs == [] then s else Step(Run(s, inputs[..|inputs| - 1]), inputs[|inputs| - 1])
  }

  // ---------------------------------------------------------------------------
  // The protocol that the client observes

  /** Where a conversation stands, judged from the messages alone. */
  datatype Phase = Between | During(id: nat) | Exiting | Over | Violation

  function NextPhase(p: Phase, m: Message): Phase {
    if m.Response? && p != Exiting then p
    else
      match p
      case Between =>
        (match m
         case EvaluationStarted(id) => During(id)
         case TerminatedEvent => Exiting
         case InitializedEvent => Between
         case StoppedEvent => Between
         case ContinuedEvent => Between
         case ResultOutput => Between
         case _ => Violation)
      case During(id) =>
        (match m
         case EvaluationCompleted(id', _) => if id' == id then Between else Violation
         case ProgressStart(id') => if id' == id then p else Violation
         case ProgressEnd(id') => if id' == id then p else Violation
         case ProgressUpdate(_) => p
         case LogOutput => p
         case _ => Violation)
      case Exiting => if m.ExitedEvent? then Over else Violation
      case Over => Violation
      case Violation => Violation
  }

  function PhaseOf(sent: seq<Message>): Phase {
    if sent == [] then Between else NextPhase(PhaseOf(sent[..|sent| - 1]), sent[|sent| - 1])
  }

  /** What every step keeps. */
  ghost predicate Invariant(s: Session) {
    && |s.inFlight| <= 1
    && (s.state == Running <==> |s.inFlight| == 1)
    && (s.runningQuery.Some? ==> |s.inFlight| == 1 && s.inFlight[0].id == s.runningQuery.value)
    && (s.state == Stopped ==> !s.terminateOnComplete)
    && (s.state == Running && s.runningQuery.None? ==> s.terminateOnComplete && s.inFlight[0].cancelled)
    && (s.terminateOnComplete && s.state in {Uninitialized, Initialized} ==> false)
    && PhaseOf(s.sent) == match s.state
                          case Running => During(s.inFlight[0].id)
                          case Terminated => Over
                          case _ => Between
  }

  lemma SendPhase(s: Session, m: Message)
    ensures PhaseOf(Send(s, m).sent) == NextPhase(PhaseOf(s.sent), m)
  {
    assert (s.sent + [m])[..|s.sent|] == s.sent;
  }

  lemma StartPhase(s: Session)
    requires PhaseOf(s.sent) == Between
    ensures PhaseOf(StartEvaluation(s).sent) == During(s.nextId)
  {
    hide PhaseOf;
    SendPhase(s, EvaluationStarted(s.nextId));
    SendPhase(Send(s, EvaluationStarted(s.nextId)), ProgressStart(s.nextId));
  }

  lemma ExitPhase(s: Session)
    requires PhaseOf(s.sent) == Between
    ensures PhaseOf(TerminateAndExit(s).sent) == Over
  {
    hide PhaseOf;
    SendPhase(s, TerminatedEvent);
    SendPhase(Send(s, TerminatedEvent), ExitedEvent(s.lastResultType));
  }

  lemma ReportPhase(s: Session)
    requires PhaseOf(s.sent) == Between
    ensures PhaseOf(ReportStopped(s).sent) == if s.terminateOnComplete then Over else Between
  {
    hide PhaseOf;
    ExitPhase(s);
    SendPhase(s, StoppedEvent);
  }

  lemma CompletePhase(s: Session, id: nat, result: ResultType)
    requires PhaseOf(s.sent) == During(id)
    ensures PhaseOf(CompleteEvaluation(s, id, result).sent) == if s.terminateOnComplete then Over else Between
  {
    hide PhaseOf;
    var s1 := s.(lastResultType := result);
    SendPhase(s1, EvaluationCompleted(id, result));
    var s2 := Send(s1, EvaluationCompleted(id, result));
    SendPhase(s2, ResultOutput);
    ReportPhase(s2);
    ReportPhase(Send(s2, ResultOutput));
  }

  lemma ResponseKeeps(s: Session, ok: bool)
    requires Invariant(s)
    ensures Invariant(Send(s, Response(ok)))
  {
    hide PhaseOf;
    SendPhase(s, Response(ok));
  }

  lemma TerminateKeeps(s: Session, force: bool)
    requires Invariant(s)
    ensures Invariant(TerminateOrDisconnect(s, force))
  {
    hide PhaseOf;
    var s1 := if force then s.(runningQuery := None) else s;
    if s.runningQuery.Some? {
      ResponseKeeps(s1.(terminateOnComplete := true,
                        inFlight := CancelQuery(s.inFlight, s.runningQuery.value)), true);
    } else if s1.state == Stopped {
      ExitPhase(s1);
      ResponseKeeps(TerminateAndExit(s1), true);
    } else {
      ResponseKeeps(s1, true);
    }
  }

  lemma ContinueKeeps(s: Session, k: nat)
    requires Invariant(s)
    ensures Invariant(Step(s, EvaluationContinues(k)))
  {
    hide PhaseOf;
    if k < |s.inFlight| && s.inFlight[k].settled.Some? {
      var e := s.inFlight[k];
      CompletePhase(s, e.id, e.settled.value);
    }
  }

  lemma QueryStepKeeps(s: Session, input: Input)
    requires Invariant(s) && !IsRequest(input)
    ensures Invariant(Step(s, input))
  {
    hide PhaseOf;
    match input
    case Dispose =>
    case QueryProgress(id) => SendPhase(s, ProgressUpdate(id));
    case QueryLog => SendPhase(s, LogOutput);
    case QuerySettles(k, result) =>
      if k < |s.inFlight| {
        SendPhase(s, ProgressEnd(s.inFlight[k].id));
      }
    case EvaluationContinues(k) => ContinueKeeps(s, k);
  }

  lemma StepKeepsInvariant(s: Session, input: Input)
    requires Invariant(s)
    ensures Invariant(Step(s, input))
  {
    hide PhaseOf;
    ResponseKeeps(s, true);
    ResponseKeeps(s, false);
    match input
    case Initialize => SendPhase(Send(s.(state := Initialized), Response(true)), InitializedEvent);
      SendPhase(s, Response(true));
    case Launch(noDebug) =>
      SendPhase(s, Response(true));
      if s.state == Initialized {
        StartPhase(Send(s.(terminateOnComplete := noDebug), Response(true)));
      }
    case StepRequest =>
      if s.state == Stopped {
        ReportPhase(Send(s, Response(true)));
      }
    case Continue =>
      if s.state == Stopped {
        StartPhase(Send(s, Response(true)));
      }
    case QuickEval =>
      if s.state == Stopped {
        SendPhase(Send(s, Response(true)), ContinuedEvent);
        StartPhase(Send(Send(s, Response(true)), ContinuedEvent));
      }
    case Terminate => TerminateKeeps(s, false);
    case Disconnect => TerminateKeeps(s, true);
    case Cancel(progressId) => ResponseKeeps(CancelRunning(s), true);
    case Threads =>
    case _ => QueryStepKeeps(s, input);
  }

  // ---------------------------------------------------------------------------
  // All runs

  /** In every run at most one evaluation is in flight, the session is stopped only if it is to stay open, and
      the messages sent follow the protocol. */
  lemma {:induction false} EveryRunKeepsInvariant(inputs: seq<Input>)
    ensures Invariant(Run(FRESH, inputs))
    decreases |inputs|
  {
    if inputs != [] {
      EveryRunKeepsInvariant(inputs[..|inputs| - 1]);
      StepKeepsInvariant(Run(FRESH, inputs[..|inputs| - 1]), inputs[|inputs| - 1]);
    }
  }

  lemma {:induction false} RunAppend(s: Session, a: seq<Input>, b: seq<Input>)
    ensures Run(s, a + b) == Run(Run(s, a), b)
    decreases |b|
  {
    if b == [] {
      assert a + b == a;
    } else {
      assert (a + b)[..|a + b| - 1] == a + b[..|b| - 1];
      RunAppend(s, a, b[..|b| - 1]);
    }
  }

  predicate IsBoundary(m: Message) {
    m.EvaluationStarted? || m.EvaluationCompleted?
  }

  lemma {:induction false} PrefixFollows(sent: seq<Message>, i: nat)
    requires i <= |sent| && PhaseOf(sent) != Violation
    ensures PhaseOf(sent[..i]) != Violation
    decreases |sent|
  {
    if i < |sent| {
      var front := sent[..|sent| - 1];
      assert front[..i] == sent[..i];
      PrefixFollows(front, i);
    } else {
      assert sent[..i] == sent;
    }
  }

  lemma PhaseAfter(sent: seq<Message>, i: nat)
    requires i < |sent|
    ensures PhaseOf(sent[..i + 1]) == NextPhase(PhaseOf(sent[..i]), sent[i])
  {
    assert sent[..i + 1][..i] == sent[..i];
  }

  /** In the middle of an evaluation, the last boundary sent was its start. */
  lemma {:induction false} DuringStarted(sent: seq<Message>, id: nat) returns (i: nat)
    requires PhaseOf(sent) == During(id)
    ensures i < |sent| && sent[i] == EvaluationStarted(id)
    ensures forall k | i < k < |sent| :: !IsBoundary(sent[k])
    decreases |sent|
  {
    var front, last := sent[..|sent| - 1], sent[|sent| - 1];
    if last.EvaluationStarted? {
      i := |sent| - 1;
    } else {
      i := DuringStarted(front, id);
    }
  }

  /** Until its completion is sent, a started evaluation goes on. */
  lemma {:induction false} StartedGoesOn(sent: seq<Message>, i: nat)
    requires i < |sent| && sent[i].EvaluationStarted? && PhaseOf(sent) != Violation
    requires forall k | i < k < |sent| :: !sent[k].EvaluationCompleted?
    ensures PhaseOf(sent) == During(sent[i].id)
    decreases |sent|
  {
    if i < |sent| - 1 {
      var front := sent[..|sent| - 1];
      PrefixFollows(sent, |sent| - 1);
      StartedGoesOn(front, i);
    }
  }

  /** Every completion answers the start before it, with no other start or completion in between. */
  lemma CompletionAnswersStart(inputs: seq<Input>, j: nat) returns (i: nat)
    requires j < |Run(FRESH, inputs).sent| && Run(FRESH, inputs).sent[j].EvaluationCompleted?
    ensures var sent := Run(FRESH, inputs).sent;
      && i < j && sent[i] == EvaluationStarted(sent[j].id)
      && forall k | i < k < j :: !IsBoundary(sent[k])
  {
    hide Run, PhaseOf;
    EveryRunKeepsInvariant(inputs);
    var sent := Run(FRESH, inputs).sent;
    PrefixFollows(sent, j + 1);
    PhaseAfter(sent, j);
    i := DuringStarted(sent[..j], sent[j].id);
  }

  /** Between two starts, the first evaluation completes. */
  lemma StartsAreSeparated(inputs: seq<Input>, i: nat, j: nat) returns (k: nat)
    requires i < j < |Run(FRESH, inputs).sent|
    requires Run(FRESH, inputs).sent[i].EvaluationStarted? && Run(FRESH, inputs).sent[j].EvaluationStarted?
    ensures var sent := Run(FRESH, inputs).sent;
      i < k < j && sent[k].EvaluationCompleted? && sent[k].id == sent[i].id
  {
    hide Run, PhaseOf;
    EveryRunKeepsInvariant(inputs);
    var sent := Run(FRESH, inputs).sent;
    PrefixFollows(sent, j);
    PrefixFollows(sent, j + 1);
    PhaseAfter(sent, j);
    if forall k | i < k < j :: !sent[k].EvaluationCompleted? {
      StartedGoesOn(sent[..j], i);
      assert false;
    }
    k := FirstCompletion(sent, i + 1);
    assert k < j;
    PrefixFollows(sent, k);
    PrefixFollows(sent, k + 1);
    PhaseAfter(sent, k);
    StartedGoesOn(sent[..k], i);
  }

  lemma FirstCompletion(sent: seq<Message>, from: nat) returns (k: nat)
    requires exists k :: from <= k < |sent| && sent[k].EvaluationCompleted?
    ensures from <= k < |sent| && sent[k].EvaluationCompleted?
    ensures forall m | from <= m < k :: !sent[m].EvaluationCompleted?
  {
    k := from;
    while !sent[k].EvaluationCompleted?
      invariant from <= k < |sent| && forall m | from <= m < k :: !sent[m].EvaluationCompleted?
      decreases |sent| - k
    {
      k := k + 1;
    }
  }

  lemma {:induction false} OverIsForever(sent: seq<Message>, i: nat)
    requires i <= |sent| && PhaseOf(sent[..i]) == Over && PhaseOf(sent) != Violation
    ensures forall k | i <= k < |sent| :: sent[k].Response?
    ensures PhaseOf(sent) == Over
    decreases |sent|
  {
    if i < |sent| {
      var front := sent[..|sent| - 1];
      PrefixFollows(sent, |sent| - 1);
      assert front[..i] == sent[..i];
      OverIsForever(front, i);
    } else {
      assert sent[..i] == sent;
    }
  }

  /** `Terminated` is directly followed by `Exited`, and after that nothing but responses is sent. */
  lemma TerminatedIsLast(inputs: seq<Input>, i: nat)
    requires i < |Run(FRESH, inputs).sent| && Run(FRESH, inputs).sent[i].TerminatedEvent?
    ensures var sent := Run(FRESH, inputs).sent;
      && i + 1 < |sent| && sent[i + 1].ExitedEvent?
      && forall k | i + 1 < k < |sent| :: sent[k].Response?
  {
    hide Run, PhaseOf;
    EveryRunKeepsInvariant(inputs);
    var sent := Run(FRESH, inputs).sent;
    PrefixFollows(sent, i + 1);
    PhaseAfter(sent, i);
    assert PhaseOf(sent[..i + 1]) == Exiting;
    assert sent[..|sent|] == sent;
    assert i + 1 < |sent|;
    PrefixFollows(sent, i + 2);
    PhaseAfter(sent, i + 1);
    OverIsForever(sent, i + 2);
  }

  lemma ExitingSentTerminated(sent: seq<Message>)
    requires PhaseOf(sent) == Exiting
    ensures sent != [] && sent[|sent| - 1].TerminatedEvent?
  {
  }

  /** `Exited` is sent directly after `Terminated` only. */
  lemma ExitFollowsTerminated(inputs: seq<Input>, i: nat)
    requires i < |Run(FRESH, inputs).sent| && Run(FRESH, inputs).sent[i].ExitedEvent?
    ensures i > 0 && Run(FRESH, inputs).sent[i - 1].TerminatedEvent?
  {
    hide Run, PhaseOf;
    EveryRunKeepsInvariant(inputs);
    var sent := Run(FRESH, inputs).sent;
    PrefixFollows(sent, i + 1);
    PhaseAfter(sent, i);
    ExitingSentTerminated(sent[..i]);
  }

  /** So neither of them is sent twice. */
  lemma TerminatedOnce(inputs: seq<Input>, i: nat, j: nat)
    requires var sent := Run(FRESH, inputs).sent;
      && i < |sent| && j < |sent|
      && ((sent[i].TerminatedEvent? && sent[j].TerminatedEvent?) || (sent[i].ExitedEvent? && sent[j].ExitedEvent?))
    ensures i == j
  {
    hide Run;
    var sent := Run(FRESH, inputs).sent;
    if sent[i].ExitedEvent? {
      ExitFollowsTerminated(inputs, i);
      ExitFollowsTerminated(inputs, j);
      TerminatedIsLast(inputs, i - 1);
      TerminatedIsLast(inputs, j - 1);
    } else {
      TerminatedIsLast(inputs, i);
      TerminatedIsLast(inputs, j);
    }
  }

  // ---------------------------------------------------------------------------
  // Termination and disconnection

  /** An evaluation is in flight, its cancellation has been requested, and the session will not outlive it. */
  predicate Ending(s: Session, id: nat) {
    |s.inFlight| == 1 && s.inFlight[0].id == id && s.inFlight[0].cancelled && s.terminateOnComplete
  }

  predicate IsQueryOutput(m: Message) {
    match m
    case EvaluationStarted(_) => true
    case ProgressStart(_) => true
    case ProgressUpdate(_) => true
    case ProgressEnd(_) => true
    case LogOutput => true
    case _ => false
  }

  /** Between two states of a run: messages are only added, and none of the added ones is query output. */
  ghost predicate Silent(s: Session, r: Session) {
    s.sent <= r.sent && forall k | |s.sent| <= k < |r.sent| :: !IsQueryOutput(r.sent[k])
  }

  /** A request to terminate or disconnect while a query runs cancels it; a disconnect also detaches from it. */
  lemma StopRequestsEnding(s: Session, force: bool)
    requires Invariant(s) && s.runningQuery.Some?
    ensures var r := TerminateOrDisconnect(s, force);
      Ending(r, s.runningQuery.value) && (force ==> r.runningQuery == None)
  {
  }

  lemma {:induction false} EndingStep(s: Session, input: Input, id: nat)
    requires Invariant(s) && Ending(s, id)
    ensures var r := Step(s, input);
      && (Ending(r, id) || (r.state == Terminated && r.inFlight == []))
      && (s.runningQuery.None? ==> r.runningQuery.None? && Silent(s, r))
  {
    hide PhaseOf;
  }

  lemma {:induction false} TerminatedStep(s: Session, input: Input)
    requires Invariant(s) && s.state == Terminated
    ensures var r := Step(s, input);
      r.state == Terminated && r.inFlight == [] && r.runningQuery.None? && Silent(s, r)
  {
    hide PhaseOf;
  }

  /** From a stop request on, a run can only wait for that one evaluation and then end in `Terminated`; after a
      disconnect it sends no progress and no log output of the query any more. */
  lemma {:induction false} EndingRun(s: Session, inputs: seq<Input>, id: nat)
    requires Invariant(s) && Ending(s, id)
    ensures var r := Run(s, inputs);
      && Invariant(r)
      && (Ending(r, id) || (r.state == Terminated && r.inFlight == []))
      && (s.runningQuery.None? ==> r.runningQuery.None? && Silent(s, r))
    decreases |inputs|
  {
    if inputs != [] {
      hide Step, Invariant, Ending;
      var before := Run(s, inputs[..|inputs| - 1]);
      EndingRun(s, inputs[..|inputs| - 1], id);
      StepKeepsInvariant(before, inputs[|inputs| - 1]);
      if Ending(before, id) {
        EndingStep(before, inputs[|inputs| - 1], id);
      } else {
        TerminatedStep(before, inputs[|inputs| - 1]);
      }
    }
  }

  /** When a disconnect interrupts a running query, whatever happens afterwards is silent about that query,
      and its completion leaves the session terminated. */
  lemma DisconnectSilences(before: seq<Input>, after: seq<Input>)
    requires Run(FRESH, before).runningQuery.Some?
    ensures var s := Run(FRESH, before + [Disconnect]);
      var r := Run(FRESH, before + [Disconnect] + after);
      && Silent(s, r)
      && (r.inFlight == [] ==> r.state == Terminated)
  {
    hide Step, TerminateOrDisconnect;
    EveryRunKeepsInvariant(before);
    EveryRunKeepsInvariant(before + [Disconnect]);
    var s0 := Run(FRESH, before);
    RunAppend(FRESH, before, [Disconnect]);
    RunAppend(FRESH, before + [Disconnect], after);
    OneStep(s0, Disconnect);
    DisconnectIsStop(s0);
    StopRequestsEnding(s0, true);
    EndingRun(Step(s0, Disconnect), after, s0.runningQuery.value);
  }

  lemma OneStep(s: Session, input: Input)
    ensures Run(s, [input]) == Step(s, input)
  {
    assert [input][..0] == [];
    hide Step;
  }

  lemma DisconnectIsStop(s: Session)
    ensures Step(s, Disconnect) == TerminateOrDisconnect(s, true)
  {
  }

  // ---------------------------------------------------------------------------
  // Responses

  function Responses(sent: seq<Message>): nat {
    if sent == [] then 0 else Responses(sent[..|sent| - 1]) + (if sent[|sent| - 1].Response? then 1 else 0)
  }

  function Requests(inputs: seq<Input>): nat {
    if inputs == [] then 0 else Requests(inputs[..|inputs| - 1]) + (if IsRequest(inputs[|inputs| - 1]) then 1 else 0)
  }

  lemma SendCounts(s: Session, m: Message)
    ensures Responses(Send(s, m).sent) == Responses(s.sent) + (if m.Response? then 1 else 0)
  {
    assert (s.sent + [m])[..|s.sent|] == s.sent;
  }

  lemma AllSendsCount()
    ensures forall t: Session, m: Message ::
              Responses(Send(t, m).sent) == Responses(t.sent) + (if m.Response? then 1 else 0)
  {
    forall t: Session, m: Message
      ensures Responses(Send(t, m).sent) == Responses(t.sent) + (if m.Response? then 1 else 0)
    {
      SendCounts(t, m);
    }
  }

  lemma RequestResponds(s: Session, input: Input)
    requires IsRequest(input)
    ensures Responses(Step(s, input).sent) == Responses(s.sent) + 1
  {
    hide Responses, CompleteEvaluation;
    AllSendsCount();
  }

  lemma QueryStepResponds(s: Session, input: Input)
    requires !IsRequest(input)
    ensures Responses(Step(s, input).sent) == Responses(s.sent)
  {
    hide Responses, TerminateOrDisconnect, StartEvaluation;
    AllSendsCount();
  }

  /** Every request is answered exactly once, in every state. */
  lemma {:induction false} EveryRequestIsAnswered(inputs: seq<Input>)
    ensures Responses(Run(FRESH, inputs).sent) == Requests(inputs)
    decreases |inputs|
  {
    if inputs != [] {
      hide Step;
      EveryRequestIsAnswered(inputs[..|inputs| - 1]);
      var before, input := Run(FRESH, inputs[..|inputs| - 1]), inputs[|inputs| - 1];
      if IsRequest(input) {
        RequestResponds(before, input);
      } else {
        QueryStepResponds(before, input);
      }
    }
  }

  // ---------------------------------------------------------------------------
  // What the client sees of each step

  /** A request is refused exactly in the states that do not accept it, and a refused request changes nothing. */
  lemma RefusedExactly(s: Session, input: Input)
    requires IsRequest(input)
    ensures s.sent + [Response(false)] <= Step(s, input).sent <==>
            || (input.Initialize? && s.state != Uninitialized)
            || (input.Launch? && s.state != Initialized)
            || ((input.StepRequest? || input.Continue? || input.QuickEval?) && s.state != Stopped)
    ensures s.sent + [Response(false)] <= Step(s, input).sent ==>
              Step(s, input) == s.(sent := s.sent + [Response(false)])
  {
    var r := Step(s, input);
    if s.sent + [Response(false)] <= r.sent {
      assert r.sent[|s.sent|] == Response(false);
    }
  }

  /** What an accepted request sends, and the state it leads to. */
  lemma AcceptedRequests(s: Session, noDebug: bool)
    ensures s.state == Uninitialized ==>
              Step(s, Initialize) == s.(state := Initialized, sent := s.sent + [Response(true), InitializedEvent])
    ensures s.state == Initialized ==>
              var r := Step(s, Launch(noDebug));
              && r.sent == s.sent + [Response(true), EvaluationStarted(s.nextId), ProgressStart(s.nextId)]
              && r.state == Running && r.runningQuery == Some(s.nextId) && r.nextId == s.nextId + 1
              && r.terminateOnComplete == noDebug && r.lastResultType == s.lastResultType
              && r.inFlight == s.inFlight + [Evaluation(s.nextId, false, None)]
    ensures s.state == Stopped && !s.terminateOnComplete ==>
              && Step(s, StepRequest) == s.(sent := s.sent + [Response(true), StoppedEvent])
              && var r := Step(s, Continue);
              && r.sent == s.sent + [Response(true), EvaluationStarted(s.nextId), ProgressStart(s.nextId)]
              && r.state == Running && r.runningQuery == Some(s.nextId) && r.nextId == s.nextId + 1
              && !r.terminateOnComplete && r.lastResultType == s.lastResultType
              && r.inFlight == s.inFlight + [Evaluation(s.nextId, false, None)]
              && Step(s, QuickEval) ==
                 r.(sent := s.sent + [Response(true), ContinuedEvent, EvaluationStarted(s.nextId),
                                      ProgressStart(s.nextId)])
    ensures Step(s, Threads) == s.(sent := s.sent + [Response(true)])
  {
  }

  /** What the running query sends, unless the session has detached from it. */
  lemma QueryMessages(s: Session, id: nat, k: nat, result: ResultType)
    ensures s.runningQuery.Some? ==>
              && Step(s, QueryProgress(id)) == s.(sent := s.sent + [ProgressUpdate(id)])
              && Step(s, QueryLog) == s.(sent := s.sent + [LogOutput])
    ensures s.runningQuery.None? ==> Step(s, QueryProgress(id)) == s && Step(s, QueryLog) == s
    ensures k < |s.inFlight| && s.inFlight[k].settled.None? ==>
              var r := Step(s, QuerySettles(k, result));
              && r.inFlight == s.inFlight[k := Evaluation(s.inFlight[k].id, s.inFlight[k].cancelled, Some(result))]
              && r == s.(inFlight := r.inFlight,
                         sent := s.sent + if s.runningQuery.Some? then [ProgressEnd(s.inFlight[k].id)] else [])
  {
  }

  /** A cancellation reaches the running query, and it alone, if it names it; a disposal always does. */
  lemma CancellationReaches(s: Session, progressId: Option<nat>)
    requires Invariant(s)
    ensures var r := Step(s, Cancel(progressId));
      && r.sent == s.sent + [Response(true)] && |r.inFlight| == |s.inFlight|
      && r == s.(sent := r.sent, inFlight := r.inFlight)
      && forall i | 0 <= i < |s.inFlight| ::
           r.inFlight[i] == s.inFlight[i].(cancelled := s.inFlight[i].cancelled ||
                                                        (progressId.Some? && s.runningQuery == progressId))
    ensures var r := Step(s, Dispose);
      && |r.inFlight| == |s.inFlight| && r == s.(inFlight := r.inFlight)
      && forall i | 0 <= i < |s.inFlight| ::
           r.inFlight[i] == s.inFlight[i].(cancelled := s.inFlight[i].cancelled || s.runningQuery.Some?)
  {
    hide PhaseOf;
  }

  /** What a request to terminate or to disconnect does: it cancels a running query and marks the session to end with
      it; it ends a stopped session at once; otherwise it is only answered. */
  lemma StopRequests(s: Session, force: bool)
    requires Invariant(s)
    ensures var r := Step(s, if force then Disconnect else Terminate);
      && (force ==> r.runningQuery.None?) && (!force ==> r.runningQuery == s.runningQuery)
      && r.lastResultType == s.lastResultType && r.nextId == s.nextId
      && (s.runningQuery.Some? ==>
            && r.state == Running && r.terminateOnComplete && r.sent == s.sent + [Response(true)]
            && r.inFlight == [s.inFlight[0].(cancelled := true)])
      && (s.runningQuery.None? ==>
            r.terminateOnComplete == s.terminateOnComplete && r.inFlight == s.inFlight)
      && (s.runningQuery.None? && s.state == Stopped ==>
            && r.state == Terminated
            && r.sent == s.sent + [TerminatedEvent, ExitedEvent(s.lastResultType), Response(true)])
      && (s.runningQuery.None? && s.state != Stopped ==>
            r.state == s.state && r.sent == s.sent + [Response(true)])
  {
    hide PhaseOf;
  }

  /** What the completion of an evaluation sends. */
  lemma CompletionSends(s: Session)
    requires Invariant(s) && |s.inFlight| == 1 && s.inFlight[0].settled.Some?
    ensures var r, id, result := Step(s, EvaluationContinues(0)), s.inFlight[0].id, s.inFlight[0].settled.value;
      && r.inFlight == [] && r.runningQuery.None? && r.lastResultType == result && r.nextId == s.nextId
      && r.terminateOnComplete == s.terminateOnComplete
      && r.state == (if s.terminateOnComplete then Terminated else Stopped)
      && r.sent == s.sent + [EvaluationCompleted(id, result)] + (if result == SUCCESS then [] else [ResultOutput]) +
                   (if s.terminateOnComplete then [TerminatedEvent, ExitedEvent(result)] else [StoppedEvent])
  {
    hide PhaseOf;
  }

  // ---------------------------------------------------------------------------
  // How a session ends

  /** One of the inputs is a request to terminate or to disconnect that comes while a query runs. */
  ghost predicate StopsQuery(s: Session, inputs: seq<Input>) {
    exists i :: 0 <= i < |inputs| && (inputs[i].Terminate? || inputs[i].Disconnect?) &&
                Run(s, inputs[..i]).runningQuery.Some?
  }

  lemma StopsQueryPush(s: Session, inputs: seq<Input>, input: Input)
    ensures StopsQuery(s, inputs + [input]) <==>
            StopsQuery(s, inputs) || ((input.Terminate? || input.Disconnect?) && Run(s, inputs).runningQuery.Some?)
  {
    hide Run;
    var all := inputs + [input];
    assert all[..|inputs|] == inputs;
    if i :| 0 <= i < |inputs| && (inputs[i].Terminate? || inputs[i].Disconnect?) &&
            Run(s, inputs[..i]).runningQuery.Some?
    {
      assert all[..i] == inputs[..i] && all[i] == inputs[i];
    }
    if i :| 0 <= i < |all| && (all[i].Terminate? || all[i].Disconnect?) && Run(s, all[..i]).runningQuery.Some? &&
            i < |inputs|
    {
      assert all[..i] == inputs[..i] && all[i] == inputs[i];
    }
    if (input.Terminate? || input.Disconnect?) && Run(s, inputs).runningQuery.Some? {
      assert all[|inputs|] == input;
    }
  }

  /** From a launch on, only a stop request that meets a running query changes whether the session ends with its
      evaluation. */
  lemma EndStep(s: Session, input: Input)
    requires Invariant(s) && s.state in {Running, Stopped, Terminated}
    ensures var r := Step(s, input);
      && r.state in {Running, Stopped, Terminated}
      && (r.terminateOnComplete <==>
            s.terminateOnComplete || ((input.Terminate? || input.Disconnect?) && s.runningQuery.Some?))
  {
    hide PhaseOf;
  }

  lemma {:induction false} EndIsDecided(s: Session, inputs: seq<Input>)
    requires Invariant(s) && s.state in {Running, Stopped, Terminated}
    ensures var r := Run(s, inputs);
      && Invariant(r) && r.state in {Running, Stopped, Terminated}
      && (r.terminateOnComplete <==> s.terminateOnComplete || StopsQuery(s, inputs))
    decreases |inputs|
  {
    hide Step, Invariant;
    if inputs != [] {
      var front, last := inputs[..|inputs| - 1], inputs[|inputs| - 1];
      assert inputs == front + [last];
      EndIsDecided(s, front);
      StepKeepsInvariant(Run(s, front), last);
      EndStep(Run(s, front), last);
      StopsQueryPush(s, front, last);
    }
  }

  /** How an evaluation ends is decided by the launch and by the stop requests since: after a launch, an evaluation that
      completes ends the session if and only if the launch was without debugging, or a request to terminate or to
      disconnect has met a running query; otherwise the session stops and stays open. */
  lemma LaunchDecidesTheEnd(before: seq<Input>, noDebug: bool, after: seq<Input>, k: nat)
    requires Run(FRESH, before).state == Initialized
    requires var r := Run(FRESH, before + [Launch(noDebug)] + after);
      k < |r.inFlight| && r.inFlight[k].settled.Some?
    ensures var launched := Run(FRESH, before + [Launch(noDebug)]);
      var r := Run(FRESH, before + [Launch(noDebug)] + after);
      var t := Step(r, EvaluationContinues(k));
      && t.inFlight == []
      && if noDebug || StopsQuery(launched, after) then
           && t.state == Terminated && |t.sent| >= |r.sent| + 2
           && t.sent[|t.sent| - 2] == TerminatedEvent && t.sent[|t.sent| - 1].ExitedEvent?
         else t.state == Stopped && |t.sent| > |r.sent| && t.sent[|t.sent| - 1] == StoppedEvent
  {
    hide Step, Run, PhaseOf, StopsQuery;
    var launched := Run(FRESH, before + [Launch(noDebug)]);
    EveryRunKeepsInvariant(before);
    EveryRunKeepsInvariant(before + [Launch(noDebug)]);
    RunAppend(FRESH, before, [Launch(noDebug)]);
    RunAppend(FRESH, before + [Launch(noDebug)], after);
    OneStep(Run(FRESH, before), Launch(noDebug));
    AcceptedRequests(Run(FRESH, before), noDebug);
    EndIsDecided(launched, after);
    CompletionSends(Run(launched, after));
  }

  /** Without such a request, exactly the launch decides: with `after` free of stop requests, a session that has come to
      rest is terminated if the launch was without debugging, and stopped otherwise. */
  lemma RestsAsLaunched(before: seq<Input>, noDebug: bool, after: seq<Input>)
    requires Run(FRESH, before).state == Initialized
    requires forall i | 0 <= i < |after| :: !after[i].Terminate? && !after[i].Disconnect?
    ensures var r := Run(FRESH, before + [Launch(noDebug)] + after);
      r.state == if r.inFlight != [] then Running else if noDebug then Terminated else Stopped
  {
    hide Step, Run, PhaseOf;
    EveryRunKeepsInvariant(before);
    EveryRunKeepsInvariant(before + [Launch(noDebug)]);
    RunAppend(FRESH, before, [Launch(noDebug)]);
    RunAppend(FRESH, before + [Launch(noDebug)], after);
    OneStep(Run(FRESH, before), Launch(noDebug));
    AcceptedRequests(Run(FRESH, before), noDebug);
    StaysOpen(Run(FRESH, before + [Launch(noDebug)]), after);
  }

  lemma OpenStep(s: Session, input: Input)
    requires Invariant(s) && s.state in {Running, Stopped, Terminated} && !input.Terminate? && !input.Disconnect?
    requires s.state == Terminated ==> s.terminateOnComplete
    ensures var r := Step(s, input);
      && r.state in {Running, Stopped, Terminated} && r.terminateOnComplete == s.terminateOnComplete
      && (r.state == Terminated ==> r.terminateOnComplete)
  {
    hide PhaseOf;
  }

  lemma {:induction false} StaysOpen(s: Session, inputs: seq<Input>)
    requires Invariant(s) && s.state in {Running, Stopped, Terminated}
    requires s.state == Terminated ==> s.terminateOnComplete
    requires forall i | 0 <= i < |inputs| :: !inputs[i].Terminate? && !inputs[i].Disconnect?
    ensures var r := Run(s, inputs);
      && Invariant(r) && r.terminateOnComplete == s.terminateOnComplete
      && r.state in {Running, Stopped, Terminated} && (r.state == Terminated ==> r.terminateOnComplete)
    decreases |inputs|
  {
    hide Step, Invariant;
    if inputs != [] {
      var front, last := inputs[..|inputs| - 1], inputs[|inputs| - 1];
      StaysOpen(s, front);
      StepKeepsInvariant(Run(s, front), last);
      OpenStep(Run(s, front), last);
    }
  }

  // ---------------------------------------------------------------------------
  // Results

  /** The query of the evaluation `id` settled with this result. */
  ghost predicate HasSettled(inputs: seq<Input>, id: nat, result: ResultType) {
    exists i :: 0 <= i < |inputs| && SettledBy(Run(FRESH, inputs[..i]), inputs[i], id, result)
  }

  predicate SettledBy(s: Session, input: Input, id: nat, result: ResultType) {
    && input.QuerySettles? && input.result == result
    && input.k < |s.inFlight| && s.inFlight[input.k].id == id && s.inFlight[input.k].settled.None?
  }

  lemma HasSettledPush(inputs: seq<Input>, input: Input, id: nat, result: ResultType)
    ensures HasSettled(inputs, id, result) || SettledBy(Run(FRESH, inputs), input, id, result) ==>
              HasSettled(inputs + [input], id, result)
  {
    hide Run, SettledBy;
    var all := inputs + [input];
    assert all[..|inputs|] == inputs && all[|inputs|] == input;
    if i :| 0 <= i < |inputs| && SettledBy(Run(FRESH, inputs[..i]), inputs[i], id, result) {
      assert all[..i] == inputs[..i] && all[i] == inputs[i];
    }
  }

  /** The last completed evaluation among the first `n` messages had this result. */
  ghost predicate LastResult(sent: seq<Message>, n: nat, result: ResultType) {
    exists i :: 0 <= i < n <= |sent| && sent[i].EvaluationCompleted? && sent[i].result == result &&
                forall k | i < k < n :: !sent[k].EvaluationCompleted?
  }

  /** What is reported is what was measured: the results sent are those that have settled, an exit code is the result
      last completed, and a stopped session has completed an evaluation. */
  ghost predicate Reported(s: Session, inputs: seq<Input>) {
    && (forall i | 0 <= i < |s.inFlight| && s.inFlight[i].settled.Some? ::
          HasSettled(inputs, s.inFlight[i].id, s.inFlight[i].settled.value))
    && (forall j | 0 <= j < |s.sent| && s.sent[j].EvaluationCompleted? ::
          HasSettled(inputs, s.sent[j].id, s.sent[j].result))
    && (forall j | 0 <= j < |s.sent| && s.sent[j].ExitedEvent? :: LastResult(s.sent, j, s.sent[j].exitCode))
    && (s.state == Stopped ==> LastResult(s.sent, |s.sent|, s.lastResultType))
  }
  lemma LastResultStays(sent: seq<Message>, added: seq<Message>, n: nat, result: ResultType)
    requires LastResult(sent, n, result)
    ensures LastResult(sent + added, n, result)
  {
    var i :| 0 <= i < n <= |sent| && sent[i].EvaluationCompleted? && sent[i].result == result &&
             forall k | i < k < n :: !sent[k].EvaluationCompleted?;
    assert (sent + added)[i] == sent[i];
  }

  lemma LastResultGrows(sent: seq<Message>, added: seq<Message>, m: nat, result: ResultType)
    requires LastResult(sent, |sent|, result) && m <= |added|
    requires forall k | 0 <= k < |added| :: !added[k].EvaluationCompleted?
    ensures LastResult(sent + added, |sent| + m, result)
  {
    var i :| 0 <= i < |sent| && sent[i].EvaluationCompleted? && sent[i].result == result &&
             forall k | i < k < |sent| :: !sent[k].EvaluationCompleted?;
    assert (sent + added)[i] == sent[i];
  }

  /** Nothing is completed, and nothing exits. */
  predicate Uneventful(added: seq<Message>) {
    forall k | 0 <= k < |added| :: !added[k].EvaluationCompleted? && !added[k].ExitedEvent?
  }

  lemma UneventfulKeeps(s: Session, r: Session, added: seq<Message>, inputs: seq<Input>, input: Input)
    requires Reported(s, inputs) && r.sent == s.sent + added && Uneventful(added)
    requires r.state == Stopped ==> s.state == Stopped && r.lastResultType == s.lastResultType
    requires forall i | 0 <= i < |r.inFlight| && r.inFlight[i].settled.Some? ::
               HasSettled(inputs + [input], r.inFlight[i].id, r.inFlight[i].settled.value)
    ensures Reported(r, inputs + [input])
  {
    hide HasSettled, LastResult;
    SentStaysReported(s, r, added, inputs, input);
    if r.state == Stopped {
      LastResultGrows(s.sent, added, |added|, s.lastResultType);
    }
  }

  /** The reports sent so far stay right. */
  lemma SentStaysReported(s: Session, r: Session, added: seq<Message>, inputs: seq<Input>, input: Input)
    requires Reported(s, inputs) && r.sent == s.sent + added
    ensures forall j | 0 <= j < |s.sent| && r.sent[j].EvaluationCompleted? ::
              HasSettled(inputs + [input], r.sent[j].id, r.sent[j].result)
    ensures forall j | 0 <= j < |s.sent| && r.sent[j].ExitedEvent? :: LastResult(r.sent, j, r.sent[j].exitCode)
  {
    hide HasSettled, LastResult;
    forall j | 0 <= j < |s.sent| && r.sent[j].EvaluationCompleted?
      ensures HasSettled(inputs + [input], r.sent[j].id, r.sent[j].result)
    {
      assert r.sent[j] == s.sent[j];
      HasSettledPush(inputs, input, r.sent[j].id, r.sent[j].result);
    }
    forall j | 0 <= j < |s.sent| && r.sent[j].ExitedEvent?
      ensures LastResult(r.sent, j, r.sent[j].exitCode)
    {
      assert r.sent[j] == s.sent[j];
      LastResultStays(s.sent, added, j, r.sent[j].exitCode);
    }
  }

  lemma FlightsStaySettled(s: Session, inputs: seq<Input>, input: Input)
    requires Reported(s, inputs)
    ensures forall i | 0 <= i < |s.inFlight| && s.inFlight[i].settled.Some? ::
              HasSettled(inputs + [input], s.inFlight[i].id, s.inFlight[i].settled.value)
  {
    hide HasSettled, LastResult;
    forall i | 0 <= i < |s.inFlight| && s.inFlight[i].settled.Some?
      ensures HasSettled(inputs + [input], s.inFlight[i].id, s.inFlight[i].settled.value)
    {
      HasSettledPush(inputs, input, s.inFlight[i].id, s.inFlight[i].settled.value);
    }
  }

  lemma SettleIsReported(inputs: seq<Input>, k: nat, result: ResultType)
    requires var s := Run(FRESH, inputs);
      Invariant(s) && Reported(s, inputs) && k < |s.inFlight| && s.inFlight[k].settled.None?
    ensures Reported(Step(Run(FRESH, inputs), QuerySettles(k, result)), inputs + [QuerySettles(k, result)])
  {
    hide Step, Run, PhaseOf, Reported, HasSettled;
    var s, input := Run(FRESH, inputs), QuerySettles(k, result);
    var r := Step(s, input);
    var added := if s.runningQuery.Some? then [ProgressEnd(s.inFlight[k].id)] else [];
    QueryMessages(s, 0, k, result);
    assert SettledBy(s, input, s.inFlight[k].id, result);
    HasSettledPush(inputs, input, s.inFlight[k].id, result);
    UneventfulKeeps(s, r, added, inputs, input);
  }

  lemma CompletionIsReported(inputs: seq<Input>, k: nat)
    requires var s := Run(FRESH, inputs);
      Invariant(s) && Reported(s, inputs) && k < |s.inFlight| && s.inFlight[k].settled.Some?
    ensures Reported(Step(Run(FRESH, inputs), EvaluationContinues(k)), inputs + [EvaluationContinues(k)])
  {
    hide Step, Run, PhaseOf, HasSettled, LastResult;
    var s, input := Run(FRESH, inputs), EvaluationContinues(k);
    var r, id, result := Step(s, input), s.inFlight[0].id, s.inFlight[0].settled.value;
    CompletionSends(s);
    var completed := s.sent + [EvaluationCompleted(id, result)];
    var output := if result == SUCCESS then [] else [ResultOutput];
    var end := if s.terminateOnComplete then [TerminatedEvent, ExitedEvent(result)] else [StoppedEvent];
    assert r.sent == s.sent + ([EvaluationCompleted(id, result)] + output + end);
    assert r.sent == completed + (output + end);
    SentStaysReported(s, r, [EvaluationCompleted(id, result)] + output + end, inputs, input);
    HasSettledPush(inputs, input, id, result);
    JustCompleted(s.sent, id, result);
    LastResultGrows(completed, output + end, |output + end|, result);
    LastResultGrows(completed, output + end, |output + end| - 1, result);
  }

  lemma JustCompleted(sent: seq<Message>, id: nat, result: ResultType)
    ensures LastResult(sent + [EvaluationCompleted(id, result)], |sent| + 1, result)
  {
    assert (sent + [EvaluationCompleted(id, result)])[|sent|] == EvaluationCompleted(id, result);
  }

  lemma StopIsReported(s: Session, inputs: seq<Input>, force: bool)
    requires Invariant(s) && Reported(s, inputs)
    ensures var input := if force then Disconnect else Terminate; Reported(Step(s, input), inputs + [input])
  {
    hide Step, PhaseOf, HasSettled, LastResult;
    var input := if force then Disconnect else Terminate;
    var r := Step(s, input);
    StopRequests(s, force);
    FlightsStaySettled(s, inputs, input);
    if s.runningQuery.None? && s.state == Stopped {
      var added := [TerminatedEvent, ExitedEvent(s.lastResultType), Response(true)];
      SentStaysReported(s, r, added, inputs, input);
      LastResultGrows(s.sent, added, 1, s.lastResultType);
    } else {
      UneventfulKeeps(s, r, [Response(true)], inputs, input);
    }
  }

  lemma StartIs(s: Session)
    ensures StartEvaluation(s) ==
            s.(runningQuery := Some(s.nextId), state := Running, nextId := s.nextId + 1,
               inFlight := s.inFlight + [Evaluation(s.nextId, false, None)],
               sent := s.sent + [EvaluationStarted(s.nextId), ProgressStart(s.nextId)])
  {
  }

  lemma QuietRequest(s: Session, input: Input) returns (added: seq<Message>)
    requires Invariant(s)
    requires input.Initialize? || input.Launch? || input.StepRequest? || input.Continue? || input.QuickEval?
    ensures var r := Step(s, input);
      && r.sent == s.sent + added && Uneventful(added)
      && r.lastResultType == s.lastResultType && (r.state == Stopped ==> s.state == Stopped)
      && forall i | 0 <= i < |r.inFlight| && r.inFlight[i].settled.Some? ::
           i < |s.inFlight| && r.inFlight[i].id == s.inFlight[i].id && r.inFlight[i].settled == s.inFlight[i].settled
  {
    hide PhaseOf, StartEvaluation;
    StartIs(Send(s, Response(true)));
    StartIs(Send(Send(s, Response(true)), ContinuedEvent));
    if input.Launch? {
      StartIs(Send(s.(terminateOnComplete := input.noDebug), Response(true)));
    }
    added := Step(s, input).sent[|s.sent|..];
  }

  /** The other steps neither complete an evaluation nor exit, and settle nothing. */
  lemma QuietStep(s: Session, input: Input) returns (added: seq<Message>)
    requires Invariant(s)
    requires !input.Terminate? && !input.Disconnect?
    requires input.QuerySettles? ==> !(input.k < |s.inFlight| && s.inFlight[input.k].settled.None?)
    requires input.EvaluationContinues? ==> !(input.k < |s.inFlight| && s.inFlight[input.k].settled.Some?)
    ensures var r := Step(s, input);
      && r.sent == s.sent + added && Uneventful(added)
      && r.lastResultType == s.lastResultType && (r.state == Stopped ==> s.state == Stopped)
      && forall i | 0 <= i < |r.inFlight| && r.inFlight[i].settled.Some? ::
           i < |s.inFlight| && r.inFlight[i].id == s.inFlight[i].id && r.inFlight[i].settled == s.inFlight[i].settled
  {
    hide PhaseOf, StartEvaluation, ReportStopped, CompleteEvaluation, TerminateOrDisconnect, Invariant;
    if input.Initialize? || input.Launch? || input.StepRequest? || input.Continue? || input.QuickEval? {
      added := QuietRequest(s, input);
    } else {
      added := Step(s, input).sent[|s.sent|..];
    }
  }

  lemma {:induction false} RunIsReported(inputs: seq<Input>)
    ensures Reported(Run(FRESH, inputs), inputs)
    decreases |inputs|
  {
    hide Step, Reported, HasSettled, LastResult, Uneventful, Invariant;
    if inputs == [] {
      NothingReported();
    } else {
      var front, input := inputs[..|inputs| - 1], inputs[|inputs| - 1];
      var s := Run(FRESH, front);
      assert inputs == front + [input];
      RunIsReported(front);
      EveryRunKeepsInvariant(front);
      StepIsReported(front, input);
    }
  }

  lemma NothingReported()
    ensures Reported(FRESH, [])
  {
  }

  lemma StepIsReported(inputs: seq<Input>, input: Input)
    requires Invariant(Run(FRESH, inputs)) && Reported(Run(FRESH, inputs), inputs)
    ensures Reported(Step(Run(FRESH, inputs), input), inputs + [input])
  {
    hide Run, Step, Reported, HasSettled, LastResult, Uneventful, Invariant;
    var s := Run(FRESH, inputs);
    if input.QuerySettles? && input.k < |s.inFlight| && s.inFlight[input.k].settled.None? {
      SettleIsReported(inputs, input.k, input.result);
    } else if input.EvaluationContinues? && input.k < |s.inFlight| && s.inFlight[input.k].settled.Some? {
      CompletionIsReported(inputs, input.k);
    } else if input.Terminate? || input.Disconnect? {
      StopIsReported(s, inputs, input.Disconnect?);
    } else {
      var added := QuietStep(s, input);
      FlightsStaySettled(s, inputs, input);
      UneventfulKeeps(s, Step(s, input), added, inputs, input);
    }
  }

  /** A completion reports the result with which the query of that very evaluation settled. */
  lemma CompletionReportsTheResult(inputs: seq<Input>, j: nat) returns (i: nat, k: nat)
    requires j < |Run(FRESH, inputs).sent| && Run(FRESH, inputs).sent[j].EvaluationCompleted?
    ensures var m := Run(FRESH, inputs).sent[j];
      && i < |inputs| && inputs[i] == QuerySettles(k, m.result)
      && var s := Run(FRESH, inputs[..i]);
      k < |s.inFlight| && s.inFlight[k].id == m.id && s.inFlight[k].settled.None?
  {
    hide Run, LastResult;
    RunIsReported(inputs);
    var m := Run(FRESH, inputs).sent[j];
    i :| 0 <= i < |inputs| && SettledBy(Run(FRESH, inputs[..i]), inputs[i], m.id, m.result);
    k := inputs[i].k;
  }

  /** The exit code is the result of the evaluation that was completed last. */
  lemma ExitCodeIsTheLastResult(inputs: seq<Input>, j: nat) returns (i: nat)
    requires j < |Run(FRESH, inputs).sent| && Run(FRESH, inputs).sent[j].ExitedEvent?
    ensures var sent := Run(FRESH, inputs).sent;
      && i < j && sent[i].EvaluationCompleted? && sent[i].result == sent[j].exitCode
      && forall k | i < k < j :: !sent[k].EvaluationCompleted?
  {
    hide Run, HasSettled;
    RunIsReported(inputs);
    var sent := Run(FRESH, inputs).sent;
    i :| 0 <= i < j <= |sent| && sent[i].EvaluationCompleted? && sent[i].result == sent[j].exitCode &&
         forall k | i < k < j :: !sent[k].EvaluationCompleted?;
  }

  // ---------------------------------------------------------------------------
  // The session object

  /** `QLDebugSession`.  `sent` stands for the connection to the client, and `inFlight` for the calls of
      `evaluate` that are suspended at their await. */
  class QLDebugSession {
    var state: State
    var terminateOnComplete: bool
    var runningQuery: Option<nat>
    var lastResultType: ResultType
    var nextId: nat
    var inFlight: seq<Evaluation>
    var sent: seq<Message>

    ghost function View(): Session
      reads this
    {
      Session(state, terminateOnComplete, runningQuery, lastResultType, nextId, inFlight, sent)
    }

    constructor ()
      ensures View() == FRESH
    {
      state, terminateOnComplete, runningQuery, lastResultType := Uninitialized, false, None, CANCELLATION;
      nextId, inFlight, sent := 0, [], [];
    }

    method SendMessage(m: Message)
      modifies this`sent
      ensures View() == Send(old(View()), m)
    {
      sent := sent + [m];
    }

    /** The callback and the logger that a `RunningQuery` is constructed with. */
    method SendFromQuery(m: Message)
      modifies this`sent
      ensures View() == SendIfConnected(old(View()), m)
    {
      if runningQuery != None {
        SendMessage(m);
      }
    }

    /** `RunningQuery.cancel` on the query with this id */
    method CancelToken(id: nat)
      modifies this`inFlight
      ensures View() == old(View()).(inFlight := CancelQuery(old(inFlight), id))
    {
      inFlight := CancelQuery(inFlight, id);
    }

    method InitializeRequest()
      modifies this
      ensures View() == Step(old(View()), Initialize)
    {
      if state == Uninitialized {
        state := Initialized;
        SendMessage(Response(true));
        SendMessage(InitializedEvent);
      } else {
        SendMessage(Response(false));
      }
    }

    method DisconnectRequest()
      modifies this
      ensures View() == Step(old(View()), Disconnect)
    {
      TerminateOrDisconnectRequest(true);
    }

    method TerminateRequest()
      modifies this
      ensures View() == Step(old(View()), Terminate)
    {
      TerminateOrDisconnectRequest(false);
    }

    method TerminateOrDisconnectRequest(force: bool)
      modifies this
      ensures View() == TerminateOrDisconnect(old(View()), force)
    {
      var query := runningQuery;
      if force {
        runningQuery := None;
      }
      if query.Some? {
        terminateOnComplete := true;
        CancelToken(query.value);
      } else if state == Stopped {
        Exit();
      }
      SendMessage(Response(true));
    }

    method LaunchRequest(noDebug: bool)
      modifies this
      ensures View() == Step(old(View()), Launch(noDebug))
    {
      if state == Initialized {
        terminateOnComplete := noDebug;
        SendMessage(Response(true));
        Evaluate();
      } else {
        SendMessage(Response(false));
      }
    }

    method StepAnyRequest()
      modifies this
      ensures View() == Step(old(View()), StepRequest)
    {
      if state == Stopped {
        SendMessage(Response(true));
        Report();
      } else {
        SendMessage(Response(false));
      }
    }

    method ContinueRequest()
      modifies this
      ensures View() == Step(old(View()), Continue)
    {
      if state == Stopped {
        SendMessage(Response(true));
        Evaluate();
      } else {
        SendMessage(Response(false));
      }
    }

    method QuickEvalRequest()
      modifies this
      ensures View() == Step(old(View()), QuickEval)
    {
      if state == Stopped {
        SendMessage(Response(true));
        SendMessage(ContinuedEvent);
        Evaluate();
      } else {
        SendMessage(Response(false));
      }
    }

    method CancelRequest(progressId: Option<nat>)
      modifies this
      ensures View() == Step(old(View()), Cancel(progressId))
    {
      if progressId.Some? && runningQuery == progressId {
        CancelToken(runningQuery.value);
      }
      SendMessage(Response(true));
    }

    method DisposeSession()
      modifies this
      ensures View() == Step(old(View()), Dispose)
    {
      if runningQuery.Some? {
        CancelToken(runningQuery.value);
      }
    }

    /** `evaluate`, up to its await */
    method Evaluate()
      modifies this
      ensures View() == StartEvaluation(old(View()))
    {
      var id := nextId;
      nextId := nextId + 1;
      runningQuery := Some(id);
      state := Running;
      inFlight := inFlight + [Evaluation(id, false, None)];
      SendFromQuery(EvaluationStarted(id));
      SendFromQuery(ProgressStart(id));
    }

    /** `RunningQuery.evaluate` gets the result of its query, or turns an exception into one. */
    method SettleQuery(k: nat, result: ResultType)
      requires k < |inFlight| && inFlight[k].settled.None?
      modifies this
      ensures View() == Step(old(View()), QuerySettles(k, result))
    {
      var e := inFlight[k];
      inFlight := inFlight[k := e.(settled := Some(result))];
      SendFromQuery(ProgressEnd(e.id));
    }

    /** `evaluate`, from its await to its end */
    method ContinueEvaluation(k: nat)
      requires k < |inFlight| && inFlight[k].settled.Some?
      modifies this
      ensures View() == Step(old(View()), EvaluationContinues(k))
    {
      var e := inFlight[k];
      Complete(e.id, e.settled.value);
      runningQuery := None;
      inFlight := inFlight[..k] + inFlight[k + 1..];
    }

    method Complete(id: nat, result: ResultType)
      modifies this
      ensures View() == CompleteEvaluation(old(View()), id, result)
    {
      lastResultType := result;
      SendMessage(EvaluationCompleted(id, result));
      if result != SUCCESS {
        SendMessage(ResultOutput);
      }
      Report();
    }

    method Report()
      modifies this
      ensures View() == ReportStopped(old(View()))
    {
      if terminateOnComplete {
        Exit();
      } else {
        SendMessage(StoppedEvent);
        state := Stopped;
      }
    }

    method Exit()
      modifies this
      ensures View() == TerminateAndExit(old(View()))
    {
      SendMessage(TerminatedEvent);
      SendMessage(ExitedEvent(lastResultType));
      state := Terminated;
    }
  }
}
