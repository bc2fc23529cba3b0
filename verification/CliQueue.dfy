/** The command queue of the CLI server (extensions/ql-vscode/src/codeql-cli/cli.ts).

    A step is the synchronous stretch of code between two awaits.  `current` stands for the one suspended call
    of `runCodeQlCliInternal`, which waits for the process to be launched or for its command to settle. */
module CliQueue {
  import Groups
  import opened Wrappers

  /** A callback in the queue. */
  datatype Job = Command(id: nat) | Restart

  /** A CLI server process; `epoch` counts the restart requests made before its launch began. */
  datatype Process = Process(pid: nat, epoch: nat)

  datatype Waiting = ForLaunch(pid: nat) | ForResult

  datatype Current = Current(id: nat, epoch: nat, waiting: Waiting)

  datatype Event =
    | Submitted(id: nat)
    | RestartRequested
    | Started(id: nat, epoch: nat)
    | LaunchBegun(pid: nat, epoch: nat)
    | Executed(id: nat, pid: nat, epoch: nat)   // the command is written to the process
    | Killed(pid: nat)
    | Finished(id: nat, ok: bool)

  datatype Server = Server(
    commandQueue: seq<Job>,
    commandInProcess: bool,
    process: Option<Process>,
    current: Option<Current>,
    thrown: bool,            // "runCodeQlCliInternal called while cli was running"
    nextId: nat,
    nextPid: nat,
    trace: seq<Event>)

  datatype Input =
    | Submit
    | RequestRestart
    | LaunchSettles(ok: bool)
    | CommandSettles(ok: bool)
    | Dispose

  const FRESH := Server([], false, None, None, false, 0, 0, [])

  function Log(s: Server, e: Event): Server {
    s.(trace := s.trace + [e])
  }

  /** The number of restart requests so far. */
  function Epoch(trace: seq<Event>): nat {
    if trace == [] then 0
    else Epoch(trace[..|trace| - 1]) + (if trace[|trace| - 1].RestartRequested? then 1 else 0)
  }

  function Kill(s: Server): Server {
    if s.process.Some? then Log(s.(process := None), Killed(s.process.value.pid)) else s
  }

  /** `runCodeQlCliInternal`, up to its first await */
  function RunInternal(s: Server, id: nat): Server {
    if s.commandInProcess then s.(thrown := true)
    else
      var epoch := Epoch(s.trace);
      var s1 := Log(s.(commandInProcess := true), Started(id, epoch));
      if s.process.None? then
        Log(s1.(current := Some(Current(id, epoch, ForLaunch(s.nextPid))), nextPid := s.nextPid + 1),
            LaunchBegun(s.nextPid, epoch))
      else
        Log(s1.(current := Some(Current(id, epoch, ForResult))), Executed(id, s.process.value.pid, epoch))
  }

  function RunNext(s: Server): Server
    decreases |s.commandQueue|
  {
    if s.commandQueue == [] then s
    else
      var s1 := s.(commandQueue := s.commandQueue[1..]);
      match s.commandQueue[0]
      case Command(id) => RunInternal(s1, id)
      case Restart => RunNext(Kill(s1))
  }

  /** The end of `runCodeQlCliInternal` */
  function Finish(s: Server, id: nat, ok: bool): Server {
    RunNext(Log(s.(commandInProcess := false, current := None), Finished(id, ok)))
  }

  function Step(s: Server, input: Input): Server {
    match input
    case Submit =>
      var s1 := Log(s.(nextId := s.nextId + 1), Submitted(s.nextId));
      if s.commandInProcess then s1.(commandQueue := s.commandQueue + [Command(s.nextId)])
      else RunInternal(s1, s.nextId)
    case RequestRestart =>
      var s1 := Log(s, RestartRequested);
      if s.commandInProcess then s1.(commandQueue := [Restart] + s.commandQueue)
      else RunNext(Kill(s1))
    case LaunchSettles(ok) =>
      if s.current.Some? && s.current.value.waiting.ForLaunch? then
        var c := s.current.value;
        if ok then
          Log(s.(process := Some(Process(c.waiting.pid, c.epoch)), current := Some(c.(waiting := ForResult))),
              Executed(c.id, c.waiting.pid, c.epoch))
        else Finish(s, c.id, false)
      else s
    case CommandSettles(ok) =>
      if s.current.Some? && s.current.value.waiting.ForResult? then
        Finish(if ok then s else Kill(s), s.current.value.id, ok)
      else s
    case Dispose => Kill(s)
  }

  function Run(s: Server, inputs: seq<Input>): Server {
    if inputs == [] then s else Step(Run(s, inputs[..|inputs| - 1]), inputs[|inputs| - 1])
  }

  // ---------------------------------------------------------------------------
  // Accounting

  function CommandsOf(queue: seq<Job>): seq<nat> {
    if queue == [] then []
    else (match queue[0] case Command(id) => [id] case Restart => []) + CommandsOf(queue[1..])
  }

  function SubmittedIds(trace: seq<Event>): seq<nat> {
    if trace == [] then []
    else
      SubmittedIds(trace[..|trace| - 1]) +
      (match trace[|trace| - 1] case Submitted(id) => [id] case _ => [])
  }

  function StartedIds(trace: seq<Event>): seq<nat> {
    if trace == [] then []
    else
      StartedIds(trace[..|trace| - 1]) +
      (match trace[|trace| - 1] case Started(id, _) => [id] case _ => [])
  }

  function FinishedIds(trace: seq<Event>): seq<nat> {
    if trace == [] then []
    else
      FinishedIds(trace[..|trace| - 1]) +
      (match trace[|trace| - 1] case Finished(id, _) => [id] case _ => [])
  }

  function RunningIds(s: Server): seq<nat> {
    if s.current.Some? then [s.current.value.id] else []
  }

  /** All restarts stand before all commands. */
  predicate RestartsFirst(queue: seq<Job>) {
    forall i, j | 0 <= i < j < |queue| && queue[j].Restart? :: queue[i].Restart?
  }

  /** The numbers below `n`, in order. */
  predicate Counts(ids: seq<nat>, n: nat) {
    |ids| == n && forall i | 0 <= i < n :: ids[i] == i
  }

  /** The bookkeeping of commands: nothing is lost, duplicated or reordered. */
  ghost predicate Accounted(s: Server) {
    && Counts(SubmittedIds(s.trace), s.nextId)
    && SubmittedIds(s.trace) == StartedIds(s.trace) + CommandsOf(s.commandQueue)
    && StartedIds(s.trace) == FinishedIds(s.trace) + RunningIds(s)
  }

  /** A time stamp is true, and a command is executed by a process of its own epoch. */
  ghost predicate EventSound(before: seq<Event>, e: Event) {
    match e
    case Started(_, epoch) => epoch == Epoch(before)
    case LaunchBegun(_, epoch) => epoch == Epoch(before)
    case Executed(id, pid, epoch) => Started(id, epoch) in before && LaunchBegun(pid, epoch) in before
    case _ => true
  }

  ghost predicate TraceSound(trace: seq<Event>) {
    forall i | 0 <= i < |trace| :: EventSound(trace[..i], trace[i])
  }

  ghost predicate Stamped(s: Server) {
    && TraceSound(s.trace)
    && (s.process.Some? ==> LaunchBegun(s.process.value.pid, s.process.value.epoch) in s.trace)
    && (s.current.Some? ==>
          && Started(s.current.value.id, s.current.value.epoch) in s.trace
          && (s.process.Some? ==> s.process.value.epoch == s.current.value.epoch)
          && (s.current.value.waiting.ForLaunch? ==>
                LaunchBegun(s.current.value.waiting.pid, s.current.value.epoch) in s.trace))
  }

  /** With no restart pending, the running command was started and the process launched after the last restart
      request. */
  ghost predicate UpToDate(s: Server) {
    Restart !in s.commandQueue ==>
      && (s.process.Some? ==> s.process.value.epoch == Epoch(s.trace))
      && (s.current.Some? ==> s.current.value.epoch == Epoch(s.trace))
  }

  ghost predicate Invariant(s: Server) {
    && !s.thrown
    && (s.commandInProcess <==> s.current.Some?)
    && (!s.commandInProcess ==> s.commandQueue == [])
    && RestartsFirst(s.commandQueue)
    && Accounted(s)
    && Stamped(s)
    && UpToDate(s)
  }

  lemma LogFacts(trace: seq<Event>, e: Event)
    ensures Epoch(trace + [e]) == Epoch(trace) + (if e.RestartRequested? then 1 else 0)
    ensures SubmittedIds(trace + [e]) == if e.Submitted? then SubmittedIds(trace) + [e.id] else SubmittedIds(trace)
    ensures StartedIds(trace + [e]) == if e.Started? then StartedIds(trace) + [e.id] else StartedIds(trace)
    ensures FinishedIds(trace + [e]) == if e.Finished? then FinishedIds(trace) + [e.id] else FinishedIds(trace)
  {
    assert (trace + [e])[..|trace|] == trace;
  }

  lemma LogSound(trace: seq<Event>, e: Event)
    requires TraceSound(trace) && EventSound(trace, e)
    ensures TraceSound(trace + [e])
  {
    hide EventSound;
    var t := trace + [e];
    forall i | 0 <= i < |t|
      ensures EventSound(t[..i], t[i])
    {
      if i < |trace| {
        assert t[..i] == trace[..i];
      } else {
        assert t[..i] == trace;
      }
    }
  }

  /** The state between a finished command and the next one: as invariant, except that jobs may be waiting. */
  ghost predicate Ready(s: Server) {
    && !s.thrown && !s.commandInProcess && s.current.None?
    && RestartsFirst(s.commandQueue)
    && Accounted(s)
    && Stamped(s)
    && UpToDate(s)
  }

  lemma LogKeeps(s: Server, e: Event)
    requires Stamped(s) && EventSound(s.trace, e)
    ensures Stamped(Log(s, e))
    ensures UpToDate(s) && !e.RestartRequested? ==> UpToDate(Log(s, e))
  {
    hide TraceSound, EventSound, Epoch;
    LogFacts(s.trace, e);
    LogSound(s.trace, e);
  }

  lemma KillKeeps(s: Server)
    requires Stamped(s) && Accounted(s)
    ensures Stamped(Kill(s)) && Accounted(Kill(s))
    ensures UpToDate(s) || s.current.None? ==> UpToDate(Kill(s))
  {
    hide TraceSound, Epoch;
    if s.process.Some? {
      var e := Killed(s.process.value.pid);
      LogKeeps(s.(process := None), e);
      LogFacts(s.trace, e);
    }
  }

  /** Starting a command when none is running. */
  lemma RunInternalKeeps(s: Server, id: nat)
    requires !s.thrown && !s.commandInProcess && s.current.None?
    requires Restart !in s.commandQueue
    requires Stamped(s) && UpToDate(s)
    requires Counts(SubmittedIds(s.trace), s.nextId)
    requires SubmittedIds(s.trace) == StartedIds(s.trace) + ([id] + CommandsOf(s.commandQueue))
    requires StartedIds(s.trace) == FinishedIds(s.trace)
    ensures Invariant(RunInternal(s, id))
  {
    hide Epoch, SubmittedIds, StartedIds, FinishedIds, TraceSound, Counts, CommandsOf;
    var epoch := Epoch(s.trace);
    var s1 := Log(s.(commandInProcess := true), Started(id, epoch));
    LogFacts(s.trace, Started(id, epoch));
    LogKeeps(s.(commandInProcess := true), Started(id, epoch));
    assert Started(id, epoch) in s1.trace;
    var next := if s.process.None? then LaunchBegun(s.nextPid, epoch) else Executed(id, s.process.value.pid, epoch);
    LogFacts(s1.trace, next);
    LogKeeps(s1, next);
    Groups.Regroup(StartedIds(s.trace), [id], CommandsOf(s.commandQueue));
    assert next in RunInternal(s, id).trace;
  }

  lemma {:induction false} RunNextKeeps(s: Server)
    requires Ready(s)
    ensures Invariant(RunNext(s))
    decreases |s.commandQueue|
  {
    hide Epoch, SubmittedIds, StartedIds, FinishedIds, TraceSound, Counts;
    if s.commandQueue != [] {
      var s1 := s.(commandQueue := s.commandQueue[1..]);
      match s.commandQueue[0]
      case Command(id) =>
        assert Restart !in s.commandQueue;
        RunInternalKeeps(s1, id);
      case Restart =>
        assert CommandsOf(s.commandQueue) == CommandsOf(s1.commandQueue);
        KillKeeps(s1);
        RunNextKeeps(Kill(s1));
    } else {
      assert RunningIds(s) == [];
    }
  }

  lemma FinishKeeps(s: Server, ok: bool)
    requires !s.thrown && s.current.Some? && RestartsFirst(s.commandQueue)
    requires Accounted(s) && Stamped(s) && UpToDate(s)
    ensures Invariant(Finish(s, s.current.value.id, ok))
  {
    hide Epoch, SubmittedIds, StartedIds, FinishedIds, TraceSound, Counts, CommandsOf, RunNext;
    var s1 := s.(commandInProcess := false, current := None);
    var e := Finished(s.current.value.id, ok);
    LogFacts(s.trace, e);
    LogKeeps(s1, e);
    RunNextKeeps(Log(s1, e));
  }

  lemma SubmitKeeps(s: Server)
    requires Invariant(s)
    ensures Invariant(Step(s, Submit))
  {
    hide Epoch, SubmittedIds, StartedIds, FinishedIds, TraceSound;
    var s1 := Log(s.(nextId := s.nextId + 1), Submitted(s.nextId));
    LogFacts(s.trace, Submitted(s.nextId));
    LogKeeps(s.(nextId := s.nextId + 1), Submitted(s.nextId));
    if s.commandInProcess {
      CommandsAppend(s.commandQueue, s.nextId);
      Groups.Regroup(StartedIds(s.trace), CommandsOf(s.commandQueue), [s.nextId]);
    } else {
      assert RunningIds(s) == [] && CommandsOf(s.commandQueue) == [];
      RunInternalKeeps(s1, s.nextId);
    }
  }

  lemma {:induction false} CommandsAppend(queue: seq<Job>, id: nat)
    ensures CommandsOf(queue + [Command(id)]) == CommandsOf(queue) + [id]
  {
    if queue != [] {
      assert (queue + [Command(id)])[1..] == queue[1..] + [Command(id)];
      CommandsAppend(queue[1..], id);
    }
  }

  lemma RestartKeeps(s: Server)
    requires Invariant(s)
    ensures Invariant(Step(s, RequestRestart))
  {
    hide Epoch, SubmittedIds, StartedIds, FinishedIds, TraceSound, Counts, CommandsOf, Kill, RunNext;
    var s1 := Log(s, RestartRequested);
    LogFacts(s.trace, RestartRequested);
    LogKeeps(s, RestartRequested);
    if s.commandInProcess {
      RestartFirst(s.commandQueue);
    } else {
      KillKeeps(s1);
      KillOnlyKills(s1);
      RunNextKeeps(Kill(s1));
    }
  }

  lemma RestartFirst(queue: seq<Job>)
    requires RestartsFirst(queue)
    ensures var q := [Restart] + queue; RestartsFirst(q) && Restart in q && CommandsOf(q) == CommandsOf(queue)
  {
    var q := [Restart] + queue;
    assert q[1..] == queue && q[0] == Restart;
    forall i, j | 0 <= i < j < |q| && q[j].Restart?
      ensures q[i].Restart?
    {
      if i > 0 {
        assert queue[i - 1] == q[i] && queue[j - 1] == q[j];
      }
    }
  }

  lemma KillOnlyKills(s: Server)
    ensures Kill(s) == s.(process := None, trace := Kill(s).trace)
  {
  }

  lemma SettleKeeps(s: Server, input: Input)
    requires Invariant(s) && (input.LaunchSettles? || input.CommandSettles? || input.Dispose?)
    ensures Invariant(Step(s, input))
  {
    hide Epoch, SubmittedIds, StartedIds, FinishedIds, TraceSound, Counts, CommandsOf, Finish;
    KillKeeps(s);
    match input
    case LaunchSettles(ok) =>
      if s.current.Some? && s.current.value.waiting.ForLaunch? {
        var c := s.current.value;
        if ok {
          LaunchKeeps(s);
        } else {
          FinishKeeps(s, false);
        }
      }
    case CommandSettles(ok) =>
      if s.current.Some? {
        FinishKeeps(if ok then s else Kill(s), ok);
      }
    case Dispose =>
  }

  lemma LaunchKeeps(s: Server)
    requires Invariant(s) && s.current.Some? && s.current.value.waiting.ForLaunch?
    ensures Invariant(Step(s, LaunchSettles(true)))
  {
    hide Epoch, SubmittedIds, StartedIds, FinishedIds, TraceSound, Counts, CommandsOf;
    var c := s.current.value;
    var e := Executed(c.id, c.waiting.pid, c.epoch);
    var s1 := s.(process := Some(Process(c.waiting.pid, c.epoch)), current := Some(c.(waiting := ForResult)));
    LogFacts(s.trace, e);
    LogKeeps(s1, e);
  }

  lemma StepKeepsInvariant(s: Server, input: Input)
    requires Invariant(s)
    ensures Invariant(Step(s, input))
  {
    hide Invariant, Step;
    match input
    case Submit => SubmitKeeps(s);
    case RequestRestart => RestartKeeps(s);
    case _ => SettleKeeps(s, input);
  }

  // ---------------------------------------------------------------------------
  // The lives of processes

  /** What the trace must say when an event happens: no process older than the last restart request survives to
      the start of a command; launches are numbered upwards; a command is executed by a process that has not been
      killed, and is the last one that was started; nothing is killed twice; and the process of a failed command
      has been killed by the time the command is finished. */
  ghost predicate LifeSound(before: seq<Event>, e: Event) {
    match e
    case Started(_, epoch) => forall x | x in before && x.Executed? && x.epoch < epoch :: Killed(x.pid) in before
    case LaunchBegun(pid, _) => forall x | x in before && x.LaunchBegun? :: x.pid < pid
    case Executed(_, pid, epoch) =>
      Killed(pid) !in before && forall x | x in before && x.Started? :: x.epoch <= epoch
    case Killed(pid) => Killed(pid) !in before
    case Finished(id, ok) => ok || forall x | x in before && x.Executed? && x.id == id :: Killed(x.pid) in before
    case _ => true
  }

  ghost predicate LivesSound(trace: seq<Event>) {
    forall i | 0 <= i < |trace| :: LifeSound(trace[..i], trace[i])
  }

  /** Every process that has executed a command is the current one or has been killed. */
  ghost predicate Alive(s: Server) {
    && LivesSound(s.trace)
    && (forall x | x in s.trace && x.Executed? ::
          s.process == Some(Process(x.pid, x.epoch)) || Killed(x.pid) in s.trace)
    && (s.process.Some? ==> s.process.value.pid < s.nextPid && Killed(s.process.value.pid) !in s.trace)
    && (forall x | x in s.trace && (x.LaunchBegun? || x.Killed?) :: x.pid < s.nextPid)
    && (s.current.Some? ==>
          && (forall x | x in s.trace && x.Started? :: x.epoch <= s.current.value.epoch)
          && (s.current.value.waiting.ForLaunch? ==>
                && s.process.None?
                && s.current.value.waiting.pid < s.nextPid && Killed(s.current.value.waiting.pid) !in s.trace))
  }

  lemma LogLives(trace: seq<Event>, e: Event)
    requires LivesSound(trace) && LifeSound(trace, e)
    ensures LivesSound(trace + [e])
    ensures forall x :: x in trace + [e] <==> x in trace || x == e
  {
    hide LifeSound;
    var t := trace + [e];
    forall i | 0 <= i < |t|
      ensures LifeSound(t[..i], t[i])
    {
      if i < |trace| {
        assert t[..i] == trace[..i];
      } else {
        assert t[..i] == trace;
      }
    }
  }

  lemma KillAlive(s: Server)
    requires Alive(s)
    ensures Alive(Kill(s))
    ensures Kill(s).process.None?
    ensures s.process.Some? ==> Killed(s.process.value.pid) in Kill(s).trace
    ensures forall x | x in s.trace :: x in Kill(s).trace
  {
    hide LivesSound;
    if s.process.Some? {
      LogLives(s.trace, Killed(s.process.value.pid));
    }
  }

  /** An event that is no start, launch, execution or kill. */
  lemma NoteAlive(s: Server, e: Event)
    requires Alive(s) && (e.Submitted? || e.RestartRequested? || (e.Finished? && (e.ok || s.process.None?)))
    ensures Alive(Log(s, e))
  {
    hide LivesSound;
    LogLives(s.trace, e);
  }

  /** Earlier starts bear earlier time stamps. */
  lemma StartedBefore(trace: seq<Event>, x: Event)
    requires TraceSound(trace) && x in trace && x.Started?
    ensures x.epoch <= Epoch(trace)
  {
    hide Epoch;
    var i :| 0 <= i < |trace| && trace[i] == x;
    assert EventSound(trace[..i], trace[i]);
    EpochIsMonotone(trace, i, |trace|);
    assert trace[..|trace|] == trace;
  }

  lemma RunInternalAlive(s: Server, id: nat)
    requires Alive(s) && Stamped(s) && UpToDate(s)
    requires !s.commandInProcess && s.current.None? && Restart !in s.commandQueue
    ensures Alive(RunInternal(s, id))
  {
    hide LivesSound, TraceSound, Epoch;
    var epoch := Epoch(s.trace);
    forall x | x in s.trace && x.Started?
      ensures x.epoch <= epoch
    {
      StartedBefore(s.trace, x);
    }
    LogLives(s.trace, Started(id, epoch));
    var next := if s.process.None? then LaunchBegun(s.nextPid, epoch) else Executed(id, s.process.value.pid, epoch);
    LogLives(s.trace + [Started(id, epoch)], next);
  }

  lemma {:induction false} RunNextAlive(s: Server)
    requires Ready(s) && Alive(s)
    ensures Alive(RunNext(s))
    decreases |s.commandQueue|
  {
    hide Epoch, SubmittedIds, StartedIds, FinishedIds, TraceSound, Counts, Alive, Stamped;
    if s.commandQueue != [] {
      var s1 := s.(commandQueue := s.commandQueue[1..]);
      DequeueAlive(s);
      match s.commandQueue[0]
      case Command(id) =>
        assert Restart !in s.commandQueue;
        RunInternalAlive(s1, id);
      case Restart =>
        assert CommandsOf(s.commandQueue) == CommandsOf(s1.commandQueue);
        KillKeeps(s1);
        KillAlive(s1);
        RunNextAlive(Kill(s1));
    }
  }

  lemma DequeueAlive(s: Server)
    requires s.commandQueue != [] && Stamped(s) && Alive(s)
    ensures var s1 := s.(commandQueue := s.commandQueue[1..]); Stamped(s1) && Alive(s1)
  {
    hide TraceSound, LivesSound;
  }

  /** Finishing a command leaves the server ready for the next job. */
  lemma FinishIsReady(s: Server, ok: bool)
    requires !s.thrown && s.current.Some? && RestartsFirst(s.commandQueue)
    requires Accounted(s) && Stamped(s) && UpToDate(s)
    ensures Ready(Log(s.(commandInProcess := false, current := None), Finished(s.current.value.id, ok)))
  {
    hide Epoch, SubmittedIds, StartedIds, FinishedIds, TraceSound, Counts, CommandsOf;
    var s1 := s.(commandInProcess := false, current := None);
    LogFacts(s.trace, Finished(s.current.value.id, ok));
    LogKeeps(s1, Finished(s.current.value.id, ok));
  }

  lemma FinishAlive(s: Server, ok: bool)
    requires !s.thrown && s.current.Some? && RestartsFirst(s.commandQueue)
    requires Accounted(s) && Stamped(s) && UpToDate(s)
    requires Alive(s) && (ok || s.process.None?)
    ensures Alive(Finish(s, s.current.value.id, ok))
  {
    hide Epoch, Accounted, Stamped, UpToDate, LivesSound, RunNext;
    FinishIsReady(s, ok);
    NoteAlive(s.(commandInProcess := false, current := None), Finished(s.current.value.id, ok));
    RunNextAlive(Log(s.(commandInProcess := false, current := None), Finished(s.current.value.id, ok)));
  }

  lemma SubmitAlive(s: Server)
    requires Invariant(s) && Alive(s)
    ensures Alive(Step(s, Submit))
  {
    hide Epoch, SubmittedIds, StartedIds, FinishedIds, TraceSound, Counts, CommandsOf, LivesSound, RunInternal;
    var s1 := Log(s.(nextId := s.nextId + 1), Submitted(s.nextId));
    LogFacts(s.trace, Submitted(s.nextId));
    LogKeeps(s.(nextId := s.nextId + 1), Submitted(s.nextId));
    NoteAlive(s.(nextId := s.nextId + 1), Submitted(s.nextId));
    if !s.commandInProcess {
      RunInternalAlive(s1, s.nextId);
    }
  }

  lemma RestartAlive(s: Server)
    requires Invariant(s) && Alive(s)
    ensures Alive(Step(s, RequestRestart))
  {
    hide Epoch, SubmittedIds, StartedIds, FinishedIds, TraceSound, Counts, CommandsOf, LivesSound, RunNext, Kill;
    var s1 := Log(s, RestartRequested);
    LogFacts(s.trace, RestartRequested);
    LogKeeps(s, RestartRequested);
    NoteAlive(s, RestartRequested);
    if !s.commandInProcess {
      KillKeeps(s1);
      KillOnlyKills(s1);
      KillAlive(s1);
      RunNextAlive(Kill(s1));
    }
  }

  lemma LaunchAlive(s: Server)
    requires Alive(s) && s.current.Some? && s.current.value.waiting.ForLaunch?
    ensures Alive(Step(s, LaunchSettles(true)))
  {
    hide LivesSound;
    var c := s.current.value;
    LogLives(s.trace, Executed(c.id, c.waiting.pid, c.epoch));
  }

  lemma SettleAlive(s: Server, input: Input)
    requires Invariant(s) && Alive(s)
    requires input.LaunchSettles? || input.CommandSettles? || input.Dispose?
    ensures Alive(Step(s, input))
  {
    hide Accounted, Stamped, UpToDate, LivesSound, Finish, Kill;
    KillKeeps(s);
    KillOnlyKills(s);
    KillAlive(s);
    match input
    case LaunchSettles(ok) =>
      if s.current.Some? && s.current.value.waiting.ForLaunch? {
        if ok {
          LaunchAlive(s);
        } else {
          FinishAlive(s, false);
        }
      }
    case CommandSettles(ok) =>
      if s.current.Some? {
        FinishAlive(if ok then s else Kill(s), ok);
      }
    case Dispose =>
  }

  lemma StepKeepsAlive(s: Server, input: Input)
    requires Invariant(s) && Alive(s)
    ensures Alive(Step(s, input))
  {
    hide Invariant, Alive, Step;
    match input
    case Submit => SubmitAlive(s);
    case RequestRestart => RestartAlive(s);
    case _ => SettleAlive(s, input);
  }

  // ---------------------------------------------------------------------------
  // All runs

  lemma {:induction false} EveryRunKeepsInvariant(inputs: seq<Input>)
    ensures Invariant(Run(FRESH, inputs))
    decreases |inputs|
  {
    if inputs == [] {
      assert Counts(SubmittedIds(FRESH.trace), 0);
    } else {
      hide Invariant, Step;
      EveryRunKeepsInvariant(inputs[..|inputs| - 1]);
      StepKeepsInvariant(Run(FRESH, inputs[..|inputs| - 1]), inputs[|inputs| - 1]);
    }
  }

  /** In every run: the guard against a second running command never fires; between steps an idle server has
      an empty queue; and the commands, numbered in the order of submission, are started in that order and each
      at most once, with those submitted being exactly those finished, running and queued, in this order. */
  lemma CommandsAreServedInOrder(inputs: seq<Input>)
    ensures var s := Run(FRESH, inputs);
      && !s.thrown
      && (!s.commandInProcess ==> s.commandQueue == [])
      && Counts(SubmittedIds(s.trace), s.nextId)
      && SubmittedIds(s.trace) == FinishedIds(s.trace) + RunningIds(s) + CommandsOf(s.commandQueue)
      && StartedIds(s.trace) == FinishedIds(s.trace) + RunningIds(s)
      && Counts(StartedIds(s.trace), |StartedIds(s.trace)|)
  {
    hide Run, Stamped, UpToDate, SubmittedIds, StartedIds, FinishedIds, CommandsOf;
    EveryRunKeepsInvariant(inputs);
    var s := Run(FRESH, inputs);
    var started, queued := StartedIds(s.trace), CommandsOf(s.commandQueue);
    assert forall i | 0 <= i < |started| :: started[i] == (started + queued)[i];
  }

  lemma {:induction false} EpochIsMonotone(trace: seq<Event>, i: nat, j: nat)
    requires i <= j <= |trace|
    ensures Epoch(trace[..i]) <= Epoch(trace[..j])
    decreases j
  {
    if i < j {
      assert trace[..j][..j - 1] == trace[..j - 1];
      EpochIsMonotone(trace, i, j - 1);
    }
  }

  lemma {:induction false} EveryRunIsAlive(inputs: seq<Input>)
    ensures Alive(Run(FRESH, inputs))
    decreases |inputs|
  {
    if inputs != [] {
      hide Invariant, Alive, Step;
      EveryRunIsAlive(inputs[..|inputs| - 1]);
      EveryRunKeepsInvariant(inputs[..|inputs| - 1]);
      StepKeepsAlive(Run(FRESH, inputs[..|inputs| - 1]), inputs[|inputs| - 1]);
    }
  }

  /** A process number stands for one launch. */
  lemma LaunchedOnce(inputs: seq<Input>, i: nat, j: nat)
    requires var trace := Run(FRESH, inputs).trace;
      i < |trace| && j < |trace| && trace[i].LaunchBegun? && trace[j].LaunchBegun? && trace[i].pid == trace[j].pid
    ensures i == j
  {
    hide Run;
    EveryRunIsAlive(inputs);
    var trace := Run(FRESH, inputs).trace;
    if i < j {
      LaunchesGrow(trace, i, j);
    } else if j < i {
      LaunchesGrow(trace, j, i);
    }
  }

  lemma LaunchesGrow(trace: seq<Event>, i: nat, j: nat)
    requires LivesSound(trace) && i < j < |trace| && trace[i].LaunchBegun? && trace[j].LaunchBegun?
    ensures trace[i].pid < trace[j].pid
  {
    assert LifeSound(trace[..j], trace[j]) && trace[i] in trace[..j];
  }

  lemma KilledIsUnused(trace: seq<Event>, m: nat, k: nat)
    requires LivesSound(trace) && m < k < |trace| && trace[m].Killed? && trace[k].Executed?
    ensures trace[m].pid != trace[k].pid
  {
    assert LifeSound(trace[..k], trace[k]) && trace[m] in trace[..k];
  }

  lemma LastStartedExecutes(trace: seq<Event>, j: nat, k: nat)
    requires LivesSound(trace) && j < k < |trace| && trace[j].Started? && trace[k].Executed?
    ensures trace[j].epoch <= trace[k].epoch
  {
    assert LifeSound(trace[..k], trace[k]) && trace[j] in trace[..k];
  }

  /** A restart request takes effect: a command that was started after the request is executed by a process
      whose launch, and there is only one with its number, also began after the request. */
  lemma RestartTakesEffect(inputs: seq<Input>, i: nat, j: nat, k: nat) returns (l: nat)
    requires var trace := Run(FRESH, inputs).trace;
      && i < j < k < |trace|
      && trace[i].RestartRequested? && trace[j].Started?
      && trace[k].Executed? && trace[k].id == trace[j].id
    ensures var trace := Run(FRESH, inputs).trace;
      && i < l < k && trace[l].LaunchBegun? && trace[l].pid == trace[k].pid
      && forall m | 0 <= m < |trace| && trace[m].LaunchBegun? && trace[m].pid == trace[k].pid :: m == l
  {
    hide Run, TraceSound;
    EveryRunKeepsInvariant(inputs);
    var trace := Run(FRESH, inputs).trace;
    var j' := StartOf(trace, k);
    l := LaunchOf(trace, k);
    StartedOnce(inputs, j, j');
    SameEpochIsAfter(trace, i, j, l);
    forall m | 0 <= m < |trace| && trace[m].LaunchBegun? && trace[m].pid == trace[k].pid
      ensures m == l
    {
      LaunchedOnce(inputs, m, l);
    }
  }

  /** A restart request kills: a process that was launched before the request, and executes a command at any
      time, is killed after that and before any command that is started after the request. */
  lemma OldProcessIsKilled(inputs: seq<Input>, l: nat, i: nat, j: nat, k: nat) returns (m: nat)
    requires var trace := Run(FRESH, inputs).trace;
      && l < i < j < |trace| && k < |trace|
      && trace[l].LaunchBegun? && trace[i].RestartRequested? && trace[j].Started?
      && trace[k].Executed? && trace[k].pid == trace[l].pid
    ensures k < m < j && Run(FRESH, inputs).trace[m] == Killed(Run(FRESH, inputs).trace[k].pid)
  {
    hide Run, LivesSound, TraceSound;
    EveryRunKeepsInvariant(inputs);
    EveryRunIsAlive(inputs);
    var trace := Run(FRESH, inputs).trace;
    var l' := LaunchOf(trace, k);
    LaunchedOnce(inputs, l, l');
    OlderThanRequest(trace, l, i, j);
    if j < k {
      LastStartedExecutes(trace, j, k);
    }
    m := StartKills(trace, k, j);
    if m < k {
      KilledIsUnused(trace, m, k);
    }
  }

  lemma StartOf(trace: seq<Event>, k: nat) returns (j: nat)
    requires TraceSound(trace) && k < |trace| && trace[k].Executed?
    ensures j < k && trace[j] == Started(trace[k].id, trace[k].epoch)
  {
    hide Epoch;
    assert EventSound(trace[..k], trace[k]);
    j :| 0 <= j < k && trace[j] == Started(trace[k].id, trace[k].epoch);
  }

  lemma LaunchOf(trace: seq<Event>, k: nat) returns (l: nat)
    requires TraceSound(trace) && k < |trace| && trace[k].Executed?
    ensures l < k && trace[l] == LaunchBegun(trace[k].pid, trace[k].epoch)
  {
    hide Epoch;
    assert EventSound(trace[..k], trace[k]);
    l :| 0 <= l < k && trace[l] == LaunchBegun(trace[k].pid, trace[k].epoch);
  }

  lemma StartKills(trace: seq<Event>, k: nat, j: nat) returns (m: nat)
    requires LivesSound(trace) && k < j < |trace| && trace[k].Executed? && trace[j].Started?
    requires trace[k].epoch < trace[j].epoch
    ensures m < j && trace[m] == Killed(trace[k].pid)
  {
    assert LifeSound(trace[..j], trace[j]) && trace[k] in trace[..j];
    m :| 0 <= m < j && trace[m] == Killed(trace[k].pid);
  }

  lemma StampIsTrue(trace: seq<Event>, i: nat)
    requires TraceSound(trace) && i < |trace| && (trace[i].Started? || trace[i].LaunchBegun?)
    ensures trace[i].epoch == Epoch(trace[..i])
  {
    hide Epoch;
    assert EventSound(trace[..i], trace[i]);
  }

  lemma RequestCounts(trace: seq<Event>, i: nat)
    requires i < |trace| && trace[i].RestartRequested?
    ensures Epoch(trace[..i + 1]) == Epoch(trace[..i]) + 1
  {
    assert trace[..i + 1][..i] == trace[..i];
  }

  /** What was launched before a restart request bears an older time stamp than what is started after it. */
  lemma OlderThanRequest(trace: seq<Event>, l: nat, i: nat, j: nat)
    requires TraceSound(trace) && l < i < j < |trace|
    requires trace[l].LaunchBegun? && trace[i].RestartRequested? && trace[j].Started?
    ensures trace[l].epoch < trace[j].epoch
  {
    hide Epoch, TraceSound;
    StampIsTrue(trace, l);
    StampIsTrue(trace, j);
    EpochIsMonotone(trace, l, i);
    RequestCounts(trace, i);
    EpochIsMonotone(trace, i + 1, j);
  }

  /** The process of a command that has failed is killed by the end of that command, and never used again. */
  lemma FailedProcessIsRetired(inputs: seq<Input>, i: nat, j: nat) returns (m: nat)
    requires var trace := Run(FRESH, inputs).trace;
      && i < j < |trace|
      && trace[i].Executed? && trace[j] == Finished(trace[i].id, false)
    ensures var trace := Run(FRESH, inputs).trace;
      && i < m < j && trace[m] == Killed(trace[i].pid)
      && forall k | j < k < |trace| && trace[k].Executed? :: trace[k].pid != trace[i].pid
  {
    hide Run;
    EveryRunIsAlive(inputs);
    var trace := Run(FRESH, inputs).trace;
    var pid := trace[i].pid;
    assert LifeSound(trace[..j], trace[j]) && trace[i] in trace[..j];
    m :| 0 <= m < j && trace[m] == Killed(pid);
    if m < i {
      KilledIsUnused(trace, m, i);
    }
    forall k | j < k < |trace| && trace[k].Executed?
      ensures trace[k].pid != pid
    {
      KilledIsUnused(trace, m, k);
    }
  }

  // ---------------------------------------------------------------------------
  // A restart waits for the running command

  /** The process of a command that has succeeded is still alive at the end of the command. */
  ghost predicate CalmEnd(before: seq<Event>, e: Event) {
    e.Finished? && e.ok ==> forall x | x in before && x.Executed? && x.id == e.id :: Killed(x.pid) !in before
  }

  ghost predicate CalmTrace(trace: seq<Event>) {
    forall i | 0 <= i < |trace| :: CalmEnd(trace[..i], trace[i])
  }

  /** The running command has been executed by the current process only. */
  ghost predicate Calm(s: Server) {
    && CalmTrace(s.trace)
    && (s.current.Some? ==>
          forall x | x in s.trace && x.Executed? && x.id == s.current.value.id ::
            s.current.value.waiting.ForResult? && s.process.Some? && s.process.value.pid == x.pid)
  }

  lemma LogCalm(trace: seq<Event>, e: Event)
    requires CalmTrace(trace) && CalmEnd(trace, e)
    ensures CalmTrace(trace + [e])
    ensures forall x :: x in trace + [e] <==> x in trace || x == e
  {
    hide CalmEnd;
    var t := trace + [e];
    forall i | 0 <= i < |t|
      ensures CalmEnd(t[..i], t[i])
    {
      if i < |trace| {
        assert t[..i] == trace[..i];
      } else {
        assert t[..i] == trace;
      }
    }
  }

  lemma {:induction false} ExecutedIsStarted(trace: seq<Event>, k: nat)
    requires TraceSound(trace) && k < |trace| && trace[k].Executed?
    ensures trace[k].id in StartedIds(trace)
  {
    hide TraceSound, StartedIds;
    var j := StartOf(trace, k);
    var rank := StartRank(trace, j);
  }

  /** A command that is about to be started has not been executed yet. */
  lemma NotExecutedYet(s: Server, id: nat)
    requires TraceSound(s.trace) && Counts(SubmittedIds(s.trace), s.nextId)
    requires StartedIds(s.trace) + [id] <= SubmittedIds(s.trace)
    ensures forall x | x in s.trace && x.Executed? :: x.id != id
  {
    hide TraceSound, StartedIds, SubmittedIds;
    var started := StartedIds(s.trace);
    assert (started + [id])[|started|] == SubmittedIds(s.trace)[|started|] == |started|;
    forall x | x in s.trace && x.Executed?
      ensures x.id != id
    {
      var k :| 0 <= k < |s.trace| && s.trace[k] == x;
      ExecutedIsStarted(s.trace, k);
      var r :| 0 <= r < |started| && started[r] == x.id;
      assert (started + [id])[r] == SubmittedIds(s.trace)[r] == r;
    }
  }

  lemma RunInternalCalm(s: Server, id: nat)
    requires CalmTrace(s.trace) && !s.commandInProcess
    requires forall x | x in s.trace && x.Executed? :: x.id != id
    ensures Calm(RunInternal(s, id))
  {
    hide CalmTrace, Epoch;
    var epoch := Epoch(s.trace);
    LogCalm(s.trace, Started(id, epoch));
    var next := if s.process.None? then LaunchBegun(s.nextPid, epoch) else Executed(id, s.process.value.pid, epoch);
    LogCalm(s.trace + [Started(id, epoch)], next);
  }

  lemma KillCalm(s: Server)
    requires CalmTrace(s.trace)
    ensures CalmTrace(Kill(s).trace)
  {
    hide CalmTrace;
    if s.process.Some? {
      LogCalm(s.trace, Killed(s.process.value.pid));
    }
  }

  lemma {:induction false} RunNextCalm(s: Server)
    requires Ready(s) && CalmTrace(s.trace)
    ensures Calm(RunNext(s))
    decreases |s.commandQueue|
  {
    hide Epoch, SubmittedIds, StartedIds, FinishedIds, TraceSound, Counts, CalmTrace;
    if s.commandQueue != [] {
      var s1 := s.(commandQueue := s.commandQueue[1..]);
      match s.commandQueue[0]
      case Command(id) =>
        assert StartedIds(s.trace) + [id] <= SubmittedIds(s.trace);
        NotExecutedYet(s1, id);
        RunInternalCalm(s1, id);
      case Restart =>
        assert CommandsOf(s.commandQueue) == CommandsOf(s1.commandQueue);
        KillKeeps(s1);
        KillCalm(s1);
        RunNextCalm(Kill(s1));
    }
  }

  lemma FinishCalm(s: Server, ok: bool)
    requires !s.thrown && s.current.Some? && RestartsFirst(s.commandQueue)
    requires Accounted(s) && Stamped(s) && UpToDate(s) && CalmTrace(s.trace)
    requires ok ==> forall x | x in s.trace && x.Executed? && x.id == s.current.value.id :: Killed(x.pid) !in s.trace
    ensures Calm(Finish(s, s.current.value.id, ok))
  {
    hide Epoch, Accounted, Stamped, UpToDate, CalmTrace, RunNext;
    FinishIsReady(s, ok);
    LogCalm(s.trace, Finished(s.current.value.id, ok));
    RunNextCalm(Log(s.(commandInProcess := false, current := None), Finished(s.current.value.id, ok)));
  }

  /** When no command runs, all commands submitted so far have been started. */
  lemma IdleSubmit(s: Server)
    requires Accounted(s) && s.commandQueue == []
    ensures var trace := s.trace + [Submitted(s.nextId)];
      Counts(SubmittedIds(trace), s.nextId + 1) && StartedIds(trace) + [s.nextId] <= SubmittedIds(trace)
  {
    hide SubmittedIds, StartedIds, FinishedIds;
    LogFacts(s.trace, Submitted(s.nextId));
    assert StartedIds(s.trace) + [] == StartedIds(s.trace);
  }

  lemma SubmitCalm(s: Server)
    requires Invariant(s) && Calm(s)
    ensures Calm(Step(s, Submit))
  {
    hide Epoch, FinishedIds, SubmittedIds, StartedIds, TraceSound, CalmTrace, RunInternal, Counts, Accounted, UpToDate;
    var e := Submitted(s.nextId);
    var s1 := Log(s.(nextId := s.nextId + 1), e);
    LogKeeps(s.(nextId := s.nextId + 1), e);
    LogCalm(s.trace, e);
    if !s.commandInProcess {
      IdleSubmit(s);
      NotExecutedYet(s1, s.nextId);
      RunInternalCalm(s1, s.nextId);
    }
  }

  lemma RestartCalm(s: Server)
    requires Invariant(s) && Calm(s)
    ensures Calm(Step(s, RequestRestart))
  {
    hide Epoch, CalmTrace, RunNext, Kill, Accounted, Stamped, UpToDate;
    LogCalm(s.trace, RestartRequested);
    if s.commandInProcess {
      RestartWaits(s);
    } else {
      RestartActs(s);
      KillCalm(Log(s, RestartRequested));
      KillOnlyKills(Log(s, RestartRequested));
    }
  }

  lemma SettleCalm(s: Server, input: Input)
    requires Invariant(s) && Alive(s) && Calm(s) && (input.LaunchSettles? || input.CommandSettles?)
    ensures Calm(Step(s, input))
  {
    hide Accounted, Stamped, UpToDate, CalmTrace, LivesSound, Finish, Kill;
    KillKeeps(s);
    KillOnlyKills(s);
    KillCalm(s);
    match input
    case LaunchSettles(ok) =>
      if s.current.Some? && s.current.value.waiting.ForLaunch? {
        var c := s.current.value;
        LogCalm(s.trace, Executed(c.id, c.waiting.pid, c.epoch));
        if !ok {
          FinishCalm(s, false);
        }
      }
    case CommandSettles(ok) =>
      if s.current.Some? && s.current.value.waiting.ForResult? {
        FinishCalm(if ok then s else Kill(s), ok);
      }
  }

  lemma {:induction false} UndisposedRunIsCalm(inputs: seq<Input>)
    requires Dispose !in inputs
    ensures Calm(Run(FRESH, inputs))
    decreases |inputs|
  {
    if inputs != [] {
      hide Invariant, Alive, Calm, Step;
      var front, input := inputs[..|inputs| - 1], inputs[|inputs| - 1];
      assert input in inputs;
      UndisposedRunIsCalm(front);
      EveryRunKeepsInvariant(front);
      EveryRunIsAlive(front);
      match input
      case Submit => SubmitCalm(Run(FRESH, front));
      case RequestRestart => RestartCalm(Run(FRESH, front));
      case LaunchSettles(ok) => SettleCalm(Run(FRESH, front), input);
      case CommandSettles(ok) => SettleCalm(Run(FRESH, front), input);
    }
  }

  /** Unless the server is disposed of, whatever restarts are requested while a command runs, the process of a
      command that succeeds is not killed before the command has ended. */
  lemma RestartWaitsForCommand(inputs: seq<Input>, k: nat, m: nat, f: nat)
    requires Dispose !in inputs
    requires var trace := Run(FRESH, inputs).trace;
      && k < f < |trace| && m < |trace|
      && trace[k].Executed? && trace[f] == Finished(trace[k].id, true) && trace[m] == Killed(trace[k].pid)
    ensures f < m
  {
    hide Run;
    UndisposedRunIsCalm(inputs);
    var trace := Run(FRESH, inputs).trace;
    NotKilledBefore(trace, k, f);
    NoKillBefore(trace, trace[k].pid, f);
  }

  lemma NotKilledBefore(trace: seq<Event>, k: nat, f: nat)
    requires CalmTrace(trace) && k < f < |trace|
    requires trace[k].Executed? && trace[f] == Finished(trace[k].id, true)
    ensures Killed(trace[k].pid) !in trace[..f]
  {
    assert CalmEnd(trace[..f], trace[f]) && trace[k] in trace[..f];
  }

  lemma NoKillBefore(trace: seq<Event>, pid: nat, f: nat)
    requires f <= |trace| && Killed(pid) !in trace[..f]
    ensures forall m | 0 <= m < f :: trace[m] != Killed(pid)
  {
    assert forall m | 0 <= m < f :: trace[m] in trace[..f];
  }

  // ---------------------------------------------------------------------------
  // When a restart waits, and when it acts

  /** While a command runs, a restart request touches neither the command nor its process. */
  lemma RestartWaits(s: Server)
    requires Invariant(s) && s.current.Some?
    ensures var r := Step(s, RequestRestart);
      && r.process == s.process && r.current == s.current && r.trace == s.trace + [RestartRequested]
      && r.commandQueue == [Restart] + s.commandQueue
  {
  }

  /** While none runs, it kills the process at once. */
  lemma RestartActs(s: Server)
    requires Invariant(s) && s.current.None?
    ensures Step(s, RequestRestart) == Kill(Log(s, RestartRequested))
  {
    hide Accounted, Stamped, UpToDate;
  }

  lemma {:induction false} RunNextExtends(s: Server)
    requires RestartsFirst(s.commandQueue) && s.current.None? && !s.commandInProcess
    ensures var r := RunNext(s);
      && s.trace <= r.trace && Restart !in r.commandQueue
      && r.process == if Restart in s.commandQueue then None else s.process
    decreases |s.commandQueue|
  {
    hide Epoch;
    if s.commandQueue != [] {
      var s1 := s.(commandQueue := s.commandQueue[1..]);
      if s.commandQueue[0].Restart? {
        RunNextExtends(Kill(s1));
      } else {
        assert Restart !in s.commandQueue;
      }
    }
  }

  /** When a command has succeeded, its process stays exactly if no restart is pending.  A pending restart kills
      it directly after the end of the command, before anything else happens. */
  lemma PendingRestartActs(s: Server)
    requires Invariant(s) && s.current.Some? && s.current.value.waiting.ForResult? && s.process.Some?
    ensures var r := Step(s, CommandSettles(true));
      && (r.process == s.process <==> Restart !in s.commandQueue)
      && Restart !in r.commandQueue
      && (Restart in s.commandQueue ==>
            && r.process.None?
            && s.trace + [Finished(s.current.value.id, true), Killed(s.process.value.pid)] <= r.trace)
  {
    hide Accounted, Stamped, UpToDate, RunNext;
    var e := Finished(s.current.value.id, true);
    var s1 := Log(s.(commandInProcess := false, current := None), e);
    RunNextExtends(s1);
    if Restart in s.commandQueue {
      assert s.commandQueue[0].Restart?;
      var s2 := s1.(commandQueue := s1.commandQueue[1..]);
      RunNextRestart(s1);
      RunNextExtends(Kill(s2));
      assert s.trace + [e] + [Killed(s.process.value.pid)] == s.trace + [e, Killed(s.process.value.pid)];
    }
  }

  lemma RunNextRestart(s: Server)
    requires s.commandQueue != [] && s.commandQueue[0].Restart?
    ensures RunNext(s) == RunNext(Kill(s.(commandQueue := s.commandQueue[1..])))
  {
  }

  /** How a command ends: one that succeeds is finished as such at once; one that fails first has its process killed,
      if there still is one, and is finished as failed, with no process left. */
  lemma CommandEndsAsSettled(s: Server, ok: bool)
    requires Invariant(s) && s.current.Some? && s.current.value.waiting.ForResult?
    ensures var r, id := Step(s, CommandSettles(ok)), s.current.value.id;
      if ok then s.trace + [Finished(id, true)] <= r.trace
      else
        && r.process.None?
        && (if s.process.Some? then s.trace + [Killed(s.process.value.pid), Finished(id, false)]
            else s.trace + [Finished(id, false)]) <= r.trace
  {
    hide Accounted, Stamped, UpToDate, RunNext;
    var id := s.current.value.id;
    var k := if ok then s else Kill(s);
    RunNextExtends(Log(k.(commandInProcess := false, current := None), Finished(id, ok)));
    if !ok && s.process.Some? {
      var e := Killed(s.process.value.pid);
      assert s.trace + [e] + [Finished(id, false)] == s.trace + [e, Finished(id, false)];
    }
  }

  /** A launch that fails fails its command; one that succeeds executes it on the new process. */
  lemma LaunchEndsAsSettled(s: Server)
    requires Invariant(s) && s.current.Some? && s.current.value.waiting.ForLaunch?
    ensures var r := Step(s, LaunchSettles(false));
      s.trace + [Finished(s.current.value.id, false)] <= r.trace &&
      r.process == if Restart in s.commandQueue then None else s.process
    ensures var c, r := s.current.value, Step(s, LaunchSettles(true));
      && r.trace == s.trace + [Executed(c.id, c.waiting.pid, c.epoch)]
      && r.process == Some(Process(c.waiting.pid, c.epoch))
      && r.current == Some(Current(c.id, c.epoch, ForResult))
      && r.commandQueue == s.commandQueue && r.commandInProcess && r.nextId == s.nextId && r.nextPid == s.nextPid
  {
    hide Accounted, Stamped, UpToDate, RunNext;
    var id := s.current.value.id;
    RunNextExtends(Log(s.(commandInProcess := false, current := None), Finished(id, false)));
  }

  /** A disposal kills the process, if there is one, and does nothing else. */
  lemma DisposalKills(s: Server)
    ensures var r := Step(s, Dispose);
      && r == s.(process := None, trace := r.trace)
      && r.trace == s.trace + if s.process.Some? then [Killed(s.process.value.pid)] else []
  {
    assert s.trace + [] == s.trace;
  }

  /** A command that is submitted while another one runs waits behind all others; otherwise it is started at once, on
      the process if there is one, and else with a launch. */
  lemma SubmissionStartsOrWaits(s: Server)
    requires Invariant(s)
    ensures var r, id, epoch := Step(s, Submit), s.nextId, Epoch(s.trace);
      && r.process == s.process && r.nextId == s.nextId + 1
      && (s.current.Some? ==>
            && r.commandQueue == s.commandQueue + [Command(id)] && r.current == s.current
            && r.trace == s.trace + [Submitted(id)])
      && (s.current.None? && s.process.Some? ==>
            && r.commandQueue == [] && r.current == Some(Current(id, epoch, ForResult))
            && r.trace == s.trace + [Submitted(id), Started(id, epoch), Executed(id, s.process.value.pid, epoch)])
      && (s.current.None? && s.process.None? ==>
            && r.commandQueue == [] && r.current == Some(Current(id, epoch, ForLaunch(s.nextPid)))
            && r.nextPid == s.nextPid + 1
            && r.trace == s.trace + [Submitted(id), Started(id, epoch), LaunchBegun(s.nextPid, epoch)])
  {
    hide Accounted, Stamped, UpToDate, Epoch;
    LogFacts(s.trace, Submitted(s.nextId));
  }

  /** What bears the same time stamp as a later event is itself later than the request. */
  lemma SameEpochIsAfter(trace: seq<Event>, i: nat, j: nat, l: nat)
    requires TraceSound(trace) && i < j < |trace| && l < |trace|
    requires trace[i].RestartRequested? && trace[j].Started? && trace[l].LaunchBegun?
    requires trace[j].epoch == trace[l].epoch
    ensures i < l
  {
    hide Epoch, TraceSound;
    StampIsTrue(trace, j);
    StampIsTrue(trace, l);
    EpochIsMonotone(trace, i + 1, j);
    RequestCounts(trace, i);
    if l <= i {
      EpochIsMonotone(trace, l, i);
    }
  }

  /** No command is started twice. */
  lemma StartedOnce(inputs: seq<Input>, i: nat, j: nat)
    requires var trace := Run(FRESH, inputs).trace;
      i < |trace| && j < |trace| && trace[i].Started? && trace[j].Started? && trace[i].id == trace[j].id
    ensures i == j
  {
    hide Run, StartedIds;
    var trace := Run(FRESH, inputs).trace;
    CommandsAreServedInOrder(inputs);
    var a := StartRank(trace, i);
    var b := StartRank(trace, j);
    if i < j {
      StartRanksGrow(trace, i, j);
    } else if j < i {
      StartRanksGrow(trace, j, i);
    }
  }

  /** Where the command started at position `i` of the trace stands among the started commands. */
  function StartsBefore(trace: seq<Event>, i: nat): nat
    requires i <= |trace|
  {
    if i == 0 then 0 else StartsBefore(trace, i - 1) + (if trace[i - 1].Started? then 1 else 0)
  }

  lemma {:induction false} StartRank(trace: seq<Event>, i: nat) returns (rank: nat)
    requires i < |trace| && trace[i].Started?
    ensures rank == StartsBefore(trace, i)
    ensures rank < |StartedIds(trace)| && StartedIds(trace)[rank] == trace[i].id
    decreases |trace|
  {
    var front := trace[..|trace| - 1];
    StartsBeforePrefix(trace, front, i);
    StartCount(front);
    if i < |trace| - 1 {
      rank := StartRank(front, i);
    } else {
      rank := |StartedIds(front)|;
    }
  }

  lemma {:induction false} StartCount(trace: seq<Event>)
    ensures |StartedIds(trace)| == StartsBefore(trace, |trace|)
    decreases |trace|
  {
    if trace != [] {
      var front := trace[..|trace| - 1];
      StartCount(front);
      StartsBeforePrefix(trace, front, |front|);
    }
  }

  lemma {:induction false} StartsBeforePrefix(trace: seq<Event>, front: seq<Event>, i: nat)
    requires i <= |front| && front <= trace
    ensures StartsBefore(trace, i) == StartsBefore(front, i)
  {
    if i > 0 {
      StartsBeforePrefix(trace, front, i - 1);
    }
  }

  lemma {:induction false} StartRanksGrow(trace: seq<Event>, i: nat, j: nat)
    requires i < j <= |trace| && trace[i].Started?
    ensures StartsBefore(trace, i) < StartsBefore(trace, j)
    decreases j
  {
    if i < j - 1 {
      StartRanksGrow(trace, i, j - 1);
    }
  }

  // ---------------------------------------------------------------------------
  // The server object

  /** `CodeQLCliServer`, its queue only */
  class CodeQLCliServer {
    var process: Option<Process>
    var commandQueue: seq<Job>
    var commandInProcess: bool
    var current: Option<Current>
    var thrown: bool
    var nextId: nat
    var nextPid: nat
    var trace: seq<Event>

    ghost function View(): Server
      reads this
    {
      Server(commandQueue, commandInProcess, process, current, thrown, nextId, nextPid, trace)
    }

    constructor ()
      ensures View() == FRESH
    {
      process, commandQueue, commandInProcess, current := None, [], false, None;
      thrown, nextId, nextPid, trace := false, 0, 0, [];
    }

    method KillProcessIfRunning()
      modifies this
      ensures View() == Kill(old(View()))
    {
      if process.Some? {
        trace := trace + [Killed(process.value.pid)];
        process := None;
      }
    }

    method RunNextJob()
      modifies this
      ensures View() == RunNext(old(View()))
      decreases |commandQueue|
    {
      if commandQueue != [] {
        var callback := commandQueue[0];
        commandQueue := commandQueue[1..];
        match callback
        case Command(id) => RunCodeQlCliInternal(id);
        case Restart =>
          KillProcessIfRunning();
          RunNextJob();
      }
    }

    method RestartCliServer()
      modifies this
      ensures View() == Step(old(View()), RequestRestart)
    {
      trace := trace + [RestartRequested];
      if commandInProcess {
        commandQueue := [Restart] + commandQueue;
      } else {
        KillProcessIfRunning();
        RunNextJob();
      }
    }

    method RunCodeQlCliCommand()
      modifies this
      ensures View() == Step(old(View()), Submit)
    {
      var id := nextId;
      nextId := nextId + 1;
      trace := trace + [Submitted(id)];
      if commandInProcess {
        commandQueue := commandQueue + [Command(id)];
      } else {
        RunCodeQlCliInternal(id);
      }
    }

    /** up to the first await */
    method RunCodeQlCliInternal(id: nat)
      modifies this
      ensures View() == RunInternal(old(View()), id)
    {
      if commandInProcess {
        thrown := true;
        return;
      }
      var epoch := Epoch(trace);
      commandInProcess := true;
      trace := trace + [Started(id, epoch)];
      if process.None? {
        current := Some(Current(id, epoch, ForLaunch(nextPid)));
        trace := trace + [LaunchBegun(nextPid, epoch)];
        nextPid := nextPid + 1;
      } else {
        current := Some(Current(id, epoch, ForResult));
        trace := trace + [Executed(id, process.value.pid, epoch)];
      }
    }

    /** `runCodeQlCliInternal`, from the launch of the process */
    method ContinueAfterLaunch(ok: bool)
      requires current.Some? && current.value.waiting.ForLaunch?
      modifies this
      ensures View() == Step(old(View()), LaunchSettles(ok))
    {
      var c := current.value;
      if ok {
        process := Some(Process(c.waiting.pid, c.epoch));
        current := Some(c.(waiting := ForResult));
        trace := trace + [Executed(c.id, c.waiting.pid, c.epoch)];
      } else {
        FinishCommand(c.id, false);
      }
    }

    /** `runCodeQlCliInternal`, from the end of its command */
    method ContinueAfterCommand(ok: bool)
      requires current.Some? && current.value.waiting.ForResult?
      modifies this
      ensures View() == Step(old(View()), CommandSettles(ok))
    {
      if !ok {
        KillProcessIfRunning();
      }
      FinishCommand(current.value.id, ok);
    }

    /** The outer `finally` */
    method FinishCommand(id: nat, ok: bool)
      modifies this
      ensures View() == Finish(old(View()), id, ok)
    {
      commandInProcess := false;
      current := None;
      trace := trace + [Finished(id, ok)];
      RunNextJob();
    }

    method DisposeServer()
      modifies this
      ensures View() == Step(old(View()), Dispose)
    {
      KillProcessIfRunning();
    }
  }
}
