/** The coalescing discovery loop (extensions/ql-vscode/src/common/discovery.ts).

    A step is the code between two awaits.  `frames` stands for the suspended calls of `launchDiscovery`, each
    awaiting the next, with the `finally` callback of `refresh` behind the outermost one. */
module DiscoveryLoop {
  import opened Wrappers

  /** Where the asynchronous code stands: nothing suspended; the innermost of `frames` calls awaits `discover`;
      or the check of the flag has been passed, and `frames` resumptions remain until the promise is cleared. */
  datatype Phase = Idle | Discovering(frames: nat) | Unwinding(frames: nat)

  /** A call of `refresh`: the promise it returned, the number of `discover` calls started before it, and whether
      it came after the flag had been checked but before the promise was cleared. */
  datatype Ticket = Ticket(promise: nat, startsBefore: nat, late: bool)

  /** The resolution of a promise: how many `discover` calls had started, and ended, by then. */
  datatype Resolution = Resolution(promise: nat, starts: nat, ends: nat)

  datatype Loop = Loop(
    restartWhenFinished: bool,
    currentDiscoveryPromise: Option<nat>,
    phase: Phase,
    nextPromise: nat,
    starts: nat,
    ends: nat,
    tickets: seq<Ticket>,
    resolutions: seq<Resolution>)

  datatype Input = Refresh | DiscoverSettles | Resume

  const FRESH := Loop(false, None, Idle, 0, 0, 0, [], [])

  /** The start of `launchDiscovery`: it calls `discover` and waits. */
  function Launch(s: Loop, frames: nat): Loop {
    s.(starts := s.starts + 1, phase := Discovering(frames))
  }

  function Step(s: Loop, input: Input): Loop {
    match input
    case Refresh =>
      if s.currentDiscoveryPromise.Some? then
        s.(restartWhenFinished := true,
           tickets := s.tickets + [Ticket(s.currentDiscoveryPromise.value, s.starts, s.phase.Unwinding?)])
      else
        Launch(s, 1).(currentDiscoveryPromise := Some(s.nextPromise), nextPromise := s.nextPromise + 1,
                      tickets := s.tickets + [Ticket(s.nextPromise, s.starts, false)])
    case DiscoverSettles =>
      if !s.phase.Discovering? then s
      else
        var s1 := s.(ends := s.ends + 1);
        if s.restartWhenFinished then Launch(s1.(restartWhenFinished := false), s.phase.frames + 1)
        else s1.(phase := Unwinding(s.phase.frames))
    case Resume =>
      if !s.phase.Unwinding? then s
      else if s.phase.frames > 1 then s.(phase := Unwinding(s.phase.frames - 1))
      else if s.currentDiscoveryPromise.None? then s.(phase := Idle)
      else
        s.(phase := Idle, currentDiscoveryPromise := None,
           resolutions := s.resolutions + [Resolution(s.currentDiscoveryPromise.value, s.starts, s.ends)])
  }

  function Run(s: Loop, inputs: seq<Input>): Loop {
    if inputs == [] then s else Step(Run(s, inputs[..|inputs| - 1]), inputs[|inputs| - 1])
  }

  // ---------------------------------------------------------------------------
  // What every step keeps

  /** What is owed to a caller whose promise is still pending: a `discover` call that starts after the refresh
      has started already, or the flag will cause one. */
  predicate Owed(s: Loop, t: Ticket) {
    if t.late then s.phase.Unwinding? && t.startsBefore == s.starts
    else t.startsBefore < s.starts || (t.startsBefore == s.starts && s.phase.Discovering? && s.restartWhenFinished)
  }

  /** A resolution keeps its promise to a caller if a `discover` call that started after the refresh has ended:
      the calls are made one after the other, so it is enough to count. */
  predicate Served(t: Ticket, r: Resolution) {
    t.startsBefore < r.ends
  }

  ghost predicate Invariant(s: Loop) {
    && (s.phase.Idle? <==> s.currentDiscoveryPromise.None?)
    && s.starts == s.ends + (if s.phase.Discovering? then 1 else 0)
    && s.starts + (if s.restartWhenFinished then 1 else 0) <= |s.tickets|
    && (s.currentDiscoveryPromise.Some? ==> s.currentDiscoveryPromise.value < s.nextPromise)
    && (forall t | t in s.tickets ::
          && t.promise < s.nextPromise
          && (s.currentDiscoveryPromise == Some(t.promise) ==> Owed(s, t)))
    && (forall r | r in s.resolutions ::
          && r.promise < s.nextPromise && r.starts == r.ends
          && s.currentDiscoveryPromise != Some(r.promise)
          && forall t | t in s.tickets && t.promise == r.promise :: Served(t, r) <==> !t.late)
  }

  lemma RefreshKeeps(s: Loop)
    requires Invariant(s)
    ensures Invariant(Step(s, Refresh))
  {
    var r := Step(s, Refresh);
    assert forall t | t in r.tickets :: t in s.tickets || t == r.tickets[|s.tickets|];
  }

  lemma SettleKeeps(s: Loop)
    requires Invariant(s)
    ensures Invariant(Step(s, DiscoverSettles))
  {
  }

  lemma ResumeKeeps(s: Loop)
    requires Invariant(s)
    ensures Invariant(Step(s, Resume))
  {
    var r := Step(s, Resume);
    assert forall x | x in r.resolutions :: x in s.resolutions || x == r.resolutions[|s.resolutions|];
  }

  lemma StepKeepsInvariant(s: Loop, input: Input)
    requires Invariant(s)
    ensures Invariant(Step(s, input))
  {
    hide Invariant, Step;
    match input
    case Refresh => RefreshKeeps(s);
    case DiscoverSettles => SettleKeeps(s);
    case Resume => ResumeKeeps(s);
  }

  lemma {:induction false} EveryRunKeepsInvariant(inputs: seq<Input>)
    ensures Invariant(Run(FRESH, inputs))
    decreases |inputs|
  {
    if inputs != [] {
      hide Invariant, Step;
      EveryRunKeepsInvariant(inputs[..|inputs| - 1]);
      StepKeepsInvariant(Run(FRESH, inputs[..|inputs| - 1]), inputs[|inputs| - 1]);
    }
  }

  /** In every run at most one `discover` call is pending, and there are no more of them than refreshes. */
  lemma AtMostOneDiscovery(inputs: seq<Input>)
    ensures var s := Run(FRESH, inputs);
      && s.ends <= s.starts <= s.ends + 1
      && s.starts <= |s.tickets|
  {
    hide Run;
    EveryRunKeepsInvariant(inputs);
  }

  /** When a promise resolves, a refresh that returned it has been served, by a `discover` call that started
      after it and has ended, exactly if it did not come late. */
  lemma ServedUnlessLate(inputs: seq<Input>, t: Ticket, r: Resolution)
    requires t in Run(FRESH, inputs).tickets && r in Run(FRESH, inputs).resolutions && t.promise == r.promise
    ensures Served(t, r) <==> !t.late
  {
    hide Run;
    EveryRunKeepsInvariant(inputs);
  }

  /** The window is real: a refresh between the check of the flag and the clearing of the promise gets a promise
      that resolves with no further `discover` call, and leaves the flag set for the next round. */
  lemma LateRefreshIsNotServed()
    ensures var s := Run(FRESH, [Refresh, DiscoverSettles, Refresh, Resume]);
      && |s.tickets| == 2 && |s.resolutions| == 1
      && s.tickets[1].late && s.tickets[1].promise == s.resolutions[0].promise
      && !Served(s.tickets[1], s.resolutions[0])
      && s.phase.Idle? && s.restartWhenFinished
  {
    var a, b := [Refresh], [Refresh, DiscoverSettles];
    var c, d := [Refresh, DiscoverSettles, Refresh], [Refresh, DiscoverSettles, Refresh, Resume];
    assert d[..3] == c && c[..2] == b && b[..1] == a && a[..0] == [];
    var s1 := Step(FRESH, Refresh);
    var s2 := Step(s1, DiscoverSettles);
    var s3 := Step(s2, Refresh);
    assert Run(FRESH, a) == s1;
    assert Run(FRESH, b) == s2;
    assert Run(FRESH, c) == s3;
  }

  /** A leftover flag is not lost: the next refresh runs `discover` again after the call it starts. */
  lemma LeftoverFlagRestarts(s: Loop)
    requires Invariant(s) && s.phase.Idle? && s.restartWhenFinished
    ensures var r := Step(Step(s, Refresh), DiscoverSettles);
      r.phase == Discovering(2) && r.starts == s.starts + 2 && !r.restartWhenFinished
  {
  }

  /** The `discover` calls that have started, and the one that the flag will cause. */
  function Due(s: Loop): nat {
    s.starts + if s.phase.Discovering? && s.restartWhenFinished then 1 else 0
  }

  /** A promise that resolves later does so after all calls that are due now. */
  lemma {:induction false} LaterResolutions(s: Loop, inputs: seq<Input>)
    requires Invariant(s)
    ensures var t := Run(s, inputs);
      && Invariant(t) && Due(s) <= Due(t)
      && forall r | r in t.resolutions :: r in s.resolutions || r.starts >= Due(s)
    decreases |inputs|
  {
    if inputs != [] {
      hide Invariant, Step, Due;
      var t, input := Run(s, inputs[..|inputs| - 1]), inputs[|inputs| - 1];
      LaterResolutions(s, inputs[..|inputs| - 1]);
      StepKeepsInvariant(t, input);
      StepResolves(t, input);
    }
  }

  lemma StepResolves(s: Loop, input: Input)
    requires Invariant(s)
    ensures var t := Step(s, input);
      Due(s) <= Due(t) && forall r | r in t.resolutions :: r in s.resolutions || r.starts >= Due(s)
  {
  }

  lemma {:induction false} RunAppend(s: Loop, a: seq<Input>, b: seq<Input>)
    ensures Run(s, a + b) == Run(Run(s, a), b)
    decreases |b|
  {
    if b == [] {
      assert a + b == a;
    } else {
      hide Step;
      assert (a + b)[..|a + b| - 1] == a + b[..|b| - 1];
      RunAppend(s, a, b[..|b| - 1]);
    }
  }

  /** Who waits for the current refresh waits long enough: when the promise that was pending then resolves, every
      `discover` call that had started by then has ended, and so has the one that was due because of the flag. */
  lemma WaitingSeesTheEnd(before: seq<Input>, after: seq<Input>, r: Resolution)
    requires Run(FRESH, before).currentDiscoveryPromise == Some(r.promise)
    requires r in Run(FRESH, before + after).resolutions
    ensures Due(Run(FRESH, before)) <= r.ends
  {
    hide Run, Step, Due;
    EveryRunKeepsInvariant(before);
    RunAppend(FRESH, before, after);
    LaterResolutions(Run(FRESH, before), after);
  }

  // ---------------------------------------------------------------------------
  // What each step does

  /** A refresh either starts a round, with a call of `discover` and a new promise, or sets the flag and joins the round
      that is pending. */
  lemma RefreshStartsOrJoins(s: Loop)
    ensures var r := Step(s, Refresh);
      if s.currentDiscoveryPromise.None? then
        && r.phase == Discovering(1) && r.currentDiscoveryPromise == Some(s.nextPromise)
        && r.nextPromise == s.nextPromise + 1 && r.starts == s.starts + 1 && r.ends == s.ends
        && r.restartWhenFinished == s.restartWhenFinished && r.resolutions == s.resolutions
        && r.tickets == s.tickets + [Ticket(s.nextPromise, s.starts, false)]
      else
        r == s.(restartWhenFinished := true,
                tickets := s.tickets + [Ticket(s.currentDiscoveryPromise.value, s.starts, s.phase.Unwinding?)])
  {
  }

  /** When `discover` ends and the flag is set, it is called again, one call deeper, and the flag is cleared; otherwise
      the calls begin to return. */
  lemma DiscoverRestartsOrReturns(s: Loop, frames: nat)
    requires s.phase == Discovering(frames)
    ensures var r := Step(s, DiscoverSettles);
      if s.restartWhenFinished then
        r == s.(restartWhenFinished := false, phase := Discovering(frames + 1), starts := s.starts + 1,
                ends := s.ends + 1)
      else r == s.(phase := Unwinding(frames), ends := s.ends + 1)
  {
  }

  function Resumes(n: nat): seq<Input> {
    if n == 0 then [] else Resumes(n - 1) + [Resume]
  }

  /** Each call that returns takes one resumption, during which the promise is still pending; the last one resolves
      it. */
  lemma {:induction false} PromiseResolvesAfter(s: Loop, frames: nat, m: nat)
    requires s.phase == Unwinding(frames) && s.currentDiscoveryPromise.Some? && 0 < frames && m <= frames
    ensures Run(s, Resumes(m)) ==
            if m < frames then s.(phase := Unwinding(frames - m))
            else s.(phase := Idle, currentDiscoveryPromise := None,
                    resolutions := s.resolutions + [Resolution(s.currentDiscoveryPromise.value, s.starts, s.ends)])
    decreases m
  {
    if m > 0 {
      PromiseResolvesAfter(s, frames, m - 1);
      assert (Resumes(m - 1) + [Resume])[..|Resumes(m - 1)|] == Resumes(m - 1);
    }
  }

  // ---------------------------------------------------------------------------
  // The discovery object

  class Discovery {
    var restartWhenFinished: bool
    var currentDiscoveryPromise: Option<nat>
    var phase: Phase
    var nextPromise: nat
    ghost var starts: nat
    ghost var ends: nat
    ghost var tickets: seq<Ticket>
    ghost var resolutions: seq<Resolution>

    ghost function View(): Loop
      reads this
    {
      Loop(restartWhenFinished, currentDiscoveryPromise, phase, nextPromise, starts, ends, tickets, resolutions)
    }

    constructor ()
      ensures View() == FRESH
    {
      restartWhenFinished, currentDiscoveryPromise, phase, nextPromise := false, None, Idle, 0;
      starts, ends, tickets, resolutions := 0, 0, [], [];
    }

    /** `None` stands for a promise that is resolved already: nothing is pending then.  Otherwise the promise is still
        pending, and `WaitingSeesTheEnd` says what has happened once it resolves. */
    method WaitForCurrentRefresh() returns (promise: Option<nat>)
      ensures promise == currentDiscoveryPromise
      ensures Invariant(View()) ==> (promise.None? <==> phase.Idle? && starts == ends)
      ensures Invariant(View()) && promise.Some? ==> forall r | r in resolutions :: r.promise != promise.value
    {
      promise := currentDiscoveryPromise;
    }

    method RefreshAll() returns (promise: nat)
      requires Invariant(View())
      modifies this
      ensures View() == Step(old(View()), Refresh)
      ensures tickets == old(tickets) + [Ticket(promise, old(starts), old(phase.Unwinding?))]
    {
      ghost var before := starts;
      ghost var late := phase.Unwinding?;
      if currentDiscoveryPromise.Some? {
        restartWhenFinished := true;
      } else {
        LaunchDiscovery(1);
        currentDiscoveryPromise := Some(nextPromise);
        nextPromise := nextPromise + 1;
      }
      promise := currentDiscoveryPromise.value;
      tickets := tickets + [Ticket(promise, before, late)];
    }

    /** `launchDiscovery`, up to its first await */
    method LaunchDiscovery(frames: nat)
      modifies this`starts, this`phase
      ensures View() == Launch(old(View()), frames)
    {
      starts := starts + 1;
      phase := Discovering(frames);
    }

    /** `launchDiscovery`, from the end of `discover`, whether it succeeded or failed */
    method ContinueAfterDiscover()
      requires phase.Discovering?
      modifies this
      ensures View() == Step(old(View()), DiscoverSettles)
    {
      ends := ends + 1;
      if restartWhenFinished {
        restartWhenFinished := false;
        LaunchDiscovery(phase.frames + 1);
      } else {
        phase := Unwinding(phase.frames);
      }
    }

    /** An outer `launchDiscovery` returns, or the `finally` callback clears the promise. */
    method ContinueUnwinding()
      requires Invariant(View()) && phase.Unwinding?
      modifies this
      ensures View() == Step(old(View()), Resume)
    {
      if phase.frames > 1 {
        phase := Unwinding(phase.frames - 1);
      } else {
        phase := Idle;
        resolutions := resolutions + [Resolution(currentDiscoveryPromise.value, starts, ends)];
        currentDiscoveryPromise := None;
      }
    }
  }
}
