/** Whole daemon runs: any number of handlers acquire, register, attach, execute and finish jobs while
    other connections stop, pause and unpause them. Worker ids are fresh, so handlers are named by them. */
module JobLifecycle {
  import opened S = JobStates
  import opened Prelude
  import Runs

  /** What the executor hands back to the handler. */
  datatype Result = Finished(exitCode: int, timedOut: bool) | ExecError

  datatype Stage = Acquired | Registered | Attached | Executing | Exited(result: Result) | Done

  /** `deadline` says whether the job's timeout really passed. */
  datatype Handler = Handler(tty: bool, stage: Stage, deadline: bool)

  /** How the worker process ended: cleanly, with a non-zero status, or with another wait error. */
  datatype Wait = Clean | ExitStatus(code: int) | WaitError

  /** `stopped` are the jobs some Stop succeeded on; `early` the jobs paused before their executor's thaw
      and not unpaused since. */
  datatype State = State(w: World, handlers: map<string, Handler>, stopped: set<string>, early: set<string>)

  datatype Event =
    | Acquire(id: string, tty: bool)
    | NetworkFails(id: string)
    | RegisterJob(id: string, pid: int)
    | Attach(id: string, memLimit: int, procLimit: int)
    | StartBatch(id: string, thaws: bool, removed: bool)
    | StartTty(id: string)
    | PayloadFails(id: string, removed: bool)
    | ContextDone(id: string, removed: bool)
    | ProcessExits(id: string, wait: Wait, removed: bool)
    | Finish(id: string, peakMemory: int)
    | DeadlinePasses(id: string)
    | StopJob(id: string, thaws: bool)
    | PauseJob(id: string, freezes: bool)
    | UnpauseJob(id: string, thaws: bool)

  predicate At(s: State, id: string, stage: Stage) {
    id in s.handlers && s.handlers[id].stage == stage
  }

  function Move(s: State, id: string, stage: Stage): State
    requires id in s.handlers
  {
    s.(handlers := s.handlers[id := s.handlers[id].(stage := stage)])
  }

  /** The executor returns after removing the cgroup, or failing to. */
  function Exit(s: State, id: string, result: Result, removed: bool): State
    requires id in s.handlers
  {
    Move(s, id, Exited(result)).(w := if removed then s.w.(cgroups := s.w.cgroups - {id}) else s.w)
  }

  predicate ContextEnded(s: State, id: string) {
    id in s.handlers && (s.handlers[id].deadline || id in s.w.cancelled)
  }

  /** What the executors make of the end of the process: only the batch one reports a wait error. */
  function ResultOf(tty: bool, wait: Wait): Result {
    match wait
    case Clean => Finished(0, false)
    case ExitStatus(code) => Finished(code, false)
    case WaitError => if tty then Finished(0, false) else ExecError
  }

  const TIMEOUT_EXIT := 124

  function FinishWorld(w: World, id: string, result: Result, peakMemory: int): World {
    match result
    case Finished(exitCode, timedOut) => UpdateFinished(w, id, exitCode, peakMemory, timedOut)
    case ExecError => UpdateFinished(w, id, 1, 0, false)
  }

  function Next(s: State, e: Event): State {
    match e
    case Acquire(id, tty) =>
      if id in s.handlers then s
      else s.(handlers := s.handlers[id := Handler(tty, Acquired, false)],
              w := s.w.(cgroups := s.w.cgroups[id := !tty]))
    case NetworkFails(id) =>
      if At(s, id, Acquired) then
        Move(s, id, Done).(w := UpdateFinished(s.w.(cgroups := s.w.cgroups - {id}), id, 1, 0, false))
      else s
    case RegisterJob(id, pid) =>
      if At(s, id, Acquired) then Move(s, id, Registered).(w := Register(s.w, id, pid, true)) else s
    case Attach(id, memLimit, procLimit) =>
      if At(s, id, Registered) then Move(s, id, Attached).(w := AttachCgroup(s.w, id, memLimit, procLimit)) else s
    case StartBatch(id, thaws, removed) =>
      if !At(s, id, Attached) || s.handlers[id].tty then s
      else if CanWrite(s.w, id, thaws) then Move(s, id, Executing).(w := s.w.(cgroups := s.w.cgroups[id := false]))
      else Exit(s, id, ExecError, removed)
    case StartTty(id) =>
      if At(s, id, Attached) && s.handlers[id].tty then Move(s, id, Executing) else s
    case PayloadFails(id, removed) =>
      if At(s, id, Executing) && !s.handlers[id].tty then Exit(s, id, ExecError, removed) else s
    case ContextDone(id, removed) =>
      if At(s, id, Executing) && ContextEnded(s, id) then Exit(s, id, Finished(TIMEOUT_EXIT, true), removed) else s
    case ProcessExits(id, wait, removed) =>
      if At(s, id, Executing) && (wait.ExitStatus? ==> wait.code != 0)
      then Exit(s, id, ResultOf(s.handlers[id].tty, wait), removed)
      else s
    case Finish(id, peakMemory) =>
      // the deferred cancel of the handler's context comes with its return
      if id in s.handlers && s.handlers[id].stage.Exited? then
        var w := FinishWorld(s.w, id, s.handlers[id].stage.result, peakMemory);
        Move(s, id, Done).(w := w.(cancelled := w.cancelled + {id}))
      else s
    case DeadlinePasses(id) =>
      if id in s.handlers then s.(handlers := s.handlers[id := s.handlers[id].(deadline := true)]) else s
    case StopJob(id, thaws) =>
      if StopOk(s.w, id) then s.(w := Stop(s.w, id, thaws), stopped := s.stopped + {id}) else s
    case PauseJob(id, freezes) =>
      if PauseOk(s.w, id, freezes) then
        s.(w := Pause(s.w, id, freezes),
           early := if At(s, id, Attached) && !s.handlers[id].tty then s.early + {id} else s.early)
      else s
    case UnpauseJob(id, thaws) =>
      if UnpauseOk(s.w, id, thaws) then s.(w := Unpause(s.w, id, thaws), early := s.early - {id}) else s
  }

  const INIT := State(World(map[], map[], {}), map[], {}, {})

  // ---------------------------------------------------------------------------
  // One job's view of the state
  // ---------------------------------------------------------------------------

  datatype View = View(handler: Option<Handler>, job: Option<Job>, cgroup: Option<bool>,
                       cancelled: bool, stopped: bool, early: bool)

  function Get<V>(m: map<string, V>, id: string): Option<V> {
    if id in m then Some(m[id]) else None
  }

  function ViewOf(s: State, id: string): View {
    View(Get(s.handlers, id), Get(s.w.jobs, id), Get(s.w.cgroups, id), id in s.w.cancelled, id in s.stopped, id in s.early)
  }

  predicate JobExpected(stage: Stage) { stage.Registered? || stage.Attached? || stage.Executing? || stage.Exited? }

  /** While its handler runs, a job is running, paused or killed; afterwards its status is terminal. */
  predicate StatusInv(v: View)
    requires v.handler.Some?
  {
    var h := v.handler.value;
    && (h.stage.Acquired? ==> v.job.None?)
    && (JobExpected(h.stage) ==> v.job.Some?)
    && (v.job.Some? ==>
          var j := v.job.value;
          && j.cancellable
          && (j.status == Killed <==> v.stopped)
          && (j.attached ==> !h.stage.Registered?)
          && (JobExpected(h.stage) ==> !Terminal(j.status) || j.status == Killed)
          && (h.stage.Done? ==> Terminal(j.status))
          && (j.status == TimedOut ==> h.deadline))
    && (v.job.None? ==> !v.stopped)
    && (v.cancelled ==> v.stopped || h.stage.Done?)
    && (h.stage.Exited? && h.stage.result.Finished? && h.stage.result.timedOut ==> h.deadline || v.stopped)
  }

  /** While executing, the cgroup is frozen exactly when the job is paused, unless that pause came before the thaw. */
  predicate FreezeInv(v: View)
    requires v.handler.Some?
  {
    var h := v.handler.value;
    && (v.early ==> v.job.Some? && (v.job.value.status == Paused || Terminal(v.job.value.status)))
    && (h.stage.Acquired? || h.stage.Registered? ==> v.cgroup == Some(!h.tty))
    && (h.stage.Attached? || h.stage.Executing? ==> v.cgroup.Some?)
    && (h.stage.Registered? ==> v.job.Some? && v.job.value.status != Paused)
    && (v.job.Some? && !Terminal(v.job.value.status) && (h.stage.Executing? || (h.stage.Attached? && h.tty)) ==>
          (v.cgroup.value <==> v.job.value.status == Paused && !v.early))
    && (h.stage.Attached? && !h.tty && v.job.Some? && v.job.value.status == Paused ==> v.early)
    && (h.tty ==> !v.early)
  }

  predicate ViewInv(v: View) {
    if v.handler.None? then v.job.None? && !v.stopped && !v.cancelled && !v.early
    else StatusInv(v) && FreezeInv(v)
  }

  ghost predicate Inv(s: State) {
    forall id :: ViewInv(ViewOf(s, id))
  }

  /** An event is about one job; every other job's view stays as it is. */
  lemma OthersUnaffected(s: State, e: Event, id: string)
    requires id != e.id
    ensures ViewOf(Next(s, e), id) == ViewOf(s, id)
  {
  }

  lemma HandlerStepKeepsView(s: State, e: Event)
    requires ViewInv(ViewOf(s, e.id)) && !e.StopJob? && !e.PauseJob? && !e.UnpauseJob? && !e.Finish?
    ensures ViewInv(ViewOf(Next(s, e), e.id))
  {
    assert ViewOf(s, e.id).handler.Some? <==> e.id in s.handlers;
  }

  lemma FinishKeepsView(s: State, e: Event)
    requires ViewInv(ViewOf(s, e.id)) && e.Finish?
    ensures ViewInv(ViewOf(Next(s, e), e.id))
  {
  }

  lemma ControlKeepsView(s: State, e: Event)
    requires ViewInv(ViewOf(s, e.id)) && (e.StopJob? || e.PauseJob? || e.UnpauseJob?)
    ensures ViewInv(ViewOf(Next(s, e), e.id))
  {
    assert ViewOf(s, e.id).job.Some? <==> e.id in s.w.jobs;
  }

  lemma StepKeepsInv(s: State, e: Event)
    requires Inv(s)
    ensures Inv(Next(s, e))
  {
    forall id ensures ViewInv(ViewOf(Next(s, e), id)) {
      assert ViewInv(ViewOf(s, id));
      if id != e.id {
        OthersUnaffected(s, e, id);
      } else if e.StopJob? || e.PauseJob? || e.UnpauseJob? {
        ControlKeepsView(s, e);
      } else if e.Finish? {
        FinishKeepsView(s, e);
      } else {
        HandlerStepKeepsView(s, e);
      }
    }
  }

  lemma RunKeepsInv(s: State, events: seq<Event>)
    requires Inv(s)
    ensures Inv(Runs.Exec(Next, s, events))
  {
    var inv := s => Inv(s);
    forall s, e | inv(s) ensures inv(Next(s, e)) {
      StepKeepsInv(s, e);
    }
    Runs.InvariantHolds(Next, inv, s, events);
  }

  lemma InvAlways(events: seq<Event>)
    ensures Inv(Runs.Exec(Next, INIT, events))
  {
    RunKeepsInv(INIT, events);
  }

  // ---------------------------------------------------------------------------
  // Main results
  // ---------------------------------------------------------------------------

  /** In every reachable state a job is killed exactly when some Stop on it succeeded, timed out only if its
      deadline really passed, and settled once its handler is done. */
  lemma KilledIffStopped(events: seq<Event>, id: string)
    ensures var s := Runs.Exec(Next, INIT, events);
            id in s.w.jobs ==>
              && (s.w.jobs[id].status == Killed <==> id in s.stopped)
              && (s.w.jobs[id].status == TimedOut ==> id in s.handlers && s.handlers[id].deadline)
              && (At(s, id, Done) ==> Terminal(s.w.jobs[id].status))
  {
    InvAlways(events);
    var s := Runs.Exec(Next, INIT, events);
    assert ViewInv(ViewOf(s, id));
  }

  predicate AllowedMove(before: Status, after: Status) {
    || after == before
    || (before == Running && after == Paused)
    || (before == Paused && after == Running)
    || (!Terminal(before) && Terminal(after))
  }

  /** One step moves a job's status only between running and paused, or once into a terminal status;
      no job disappears, and a new one starts running. */
  lemma StatusMoves(s: State, e: Event, id: string)
    requires Inv(s)
    ensures id in s.w.jobs ==>
              id in Next(s, e).w.jobs && AllowedMove(s.w.jobs[id].status, Next(s, e).w.jobs[id].status)
    ensures id !in s.w.jobs && id in Next(s, e).w.jobs ==> Next(s, e).w.jobs[id].status == Running
  {
    assert ViewInv(ViewOf(s, id));
    if id != e.id {
      OthersUnaffected(s, e, id);
      assert ViewOf(Next(s, e), id).job == ViewOf(s, id).job;
    }
  }

  /** Over every run: whatever the daemon does next, the job's status makes an allowed move. */
  lemma EveryStatusMove(before: seq<Event>, e: Event, id: string)
    ensures var s, s' := Runs.Exec(Next, INIT, before), Runs.Exec(Next, INIT, before + [e]);
            && (id in s.w.jobs ==> id in s'.w.jobs && AllowedMove(s.w.jobs[id].status, s'.w.jobs[id].status))
            && (id !in s.w.jobs && id in s'.w.jobs ==> s'.w.jobs[id].status == Running)
  {
    InvAlways(before);
    Runs.ExecOneMore(Next, INIT, before, e);
    StatusMoves(Runs.Exec(Next, INIT, before), e, id);
  }

  /** A terminal status is never changed again by any step of any connection. */
  lemma TerminalAbsorbs(before: seq<Event>, after: seq<Event>, id: string)
    requires var s := Runs.Exec(Next, INIT, before); id in s.w.jobs && Terminal(s.w.jobs[id].status)
    ensures var s := Runs.Exec(Next, INIT, before);
            var s' := Runs.Exec(Next, INIT, before + after);
            id in s'.w.jobs && s'.w.jobs[id].status == s.w.jobs[id].status
  {
    InvAlways(before);
    var start := Runs.Exec(Next, INIT, before);
    var settled := s => Settled(s, id, start.w.jobs[id].status);
    forall s, e | settled(s) ensures settled(Next(s, e)) {
      StepKeepsInv(s, e);
      StatusMoves(s, e, id);
    }
    Runs.InvariantHolds(Next, settled, start, after);
    Runs.ExecConcat(Next, INIT, before, after);
  }

  ghost predicate Settled(s: State, id: string, status: Status) {
    Inv(s) && Terminal(status) && id in s.w.jobs && s.w.jobs[id].status == status
  }

  // ---------------------------------------------------------------------------
  // Pauses that come too early
  // ---------------------------------------------------------------------------

  /** The state in which event `i` of a run meets the daemon. */
  function Before(events: seq<Event>, i: nat): State
    requires i <= |events|
  {
    Runs.Exec(Next, INIT, events[..i])
  }

  /** `e` pauses batch job `id` between the attaching of its cgroup and the thaw. */
  predicate AcceptedEarly(s: State, e: Event, id: string) {
    && e.PauseJob? && e.id == id && PauseOk(s.w, id, e.freezes)
    && At(s, id, Attached) && !s.handlers[id].tty
  }

  predicate AcceptedUnpause(s: State, e: Event, id: string) {
    e.UnpauseJob? && e.id == id && UnpauseOk(s.w, id, e.thaws)
  }

  predicate PausesEarly(events: seq<Event>, i: nat, id: string)
    requires i < |events|
  {
    AcceptedEarly(Before(events, i), events[i], id)
  }

  predicate Unpauses(events: seq<Event>, i: nat, id: string)
    requires i < |events|
  {
    AcceptedUnpause(Before(events, i), events[i], id)
  }

  ghost predicate NotUnpausedAfter(events: seq<Event>, i: nat, id: string) {
    forall j :: i < j < |events| ==> !Unpauses(events, j, id)
  }

  /** The run has an early pause of the job that was not taken back. */
  ghost predicate EarlyPausePending(events: seq<Event>, id: string) {
    exists i :: 0 <= i < |events| && PausesEarly(events, i, id) && NotUnpausedAfter(events, i, id)
  }

  lemma OneMoreEvent(events: seq<Event>, e: Event, i: nat, id: string)
    requires i < |events|
    ensures PausesEarly(events + [e], i, id) == PausesEarly(events, i, id)
    ensures Unpauses(events + [e], i, id) == Unpauses(events, i, id)
  {
    assert (events + [e])[..i] == events[..i];
  }

  lemma LastEvent(events: seq<Event>, e: Event)
    ensures Before(events + [e], |events|) == Runs.Exec(Next, INIT, events)
  {
    assert (events + [e])[..|events|] == events;
  }

  lemma PendingStep(events: seq<Event>, e: Event, id: string)
    ensures EarlyPausePending(events + [e], id) <==>
            || PausesEarly(events + [e], |events|, id)
            || (EarlyPausePending(events, id) && !Unpauses(events + [e], |events|, id))
  {
    var more := events + [e];
    forall i | 0 <= i < |events| ensures PausesEarly(more, i, id) == PausesEarly(events, i, id) {
      OneMoreEvent(events, e, i, id);
    }
    forall i: nat | i < |events|
      ensures NotUnpausedAfter(more, i, id) <==> NotUnpausedAfter(events, i, id) && !Unpauses(more, |events|, id)
    {
      forall j | i < j < |events| ensures Unpauses(more, j, id) == Unpauses(events, j, id) {
        OneMoreEvent(events, e, j, id);
      }
    }
    if PausesEarly(more, |events|, id) {
      assert NotUnpausedAfter(more, |events|, id);
    }
    if i :| 0 <= i < |events| && PausesEarly(events, i, id) && NotUnpausedAfter(events, i, id) {
      assert PausesEarly(more, i, id);
    }
  }

  lemma EarlyStep(s: State, e: Event, id: string)
    ensures id in Next(s, e).early <==> AcceptedEarly(s, e, id) || (id in s.early && !AcceptedUnpause(s, e, id))
  {
  }

  /** The bookkeeping of the state is about the run's events. */
  lemma {:induction false} EarlyIffPending(events: seq<Event>, id: string)
    ensures id in Runs.Exec(Next, INIT, events).early <==> EarlyPausePending(events, id)
  {
    if events != [] {
      var init, e := events[..|events| - 1], events[|events| - 1];
      assert events == init + [e];
      EarlyIffPending(init, id);
      PendingStep(init, e, id);
      LastEvent(init, e);
      Runs.ExecOneMore(Next, INIT, init, e);
      EarlyStep(Runs.Exec(Next, INIT, init), e, id);
    }
  }

  /** For an executing job that is still active, "paused" and "frozen" agree if and only if the run has no
      accepted pause of it before the executor's thaw that no later accepted unpause took back. */
  lemma PausedIffFrozen(events: seq<Event>, id: string)
    requires var s := Runs.Exec(Next, INIT, events);
             At(s, id, Executing) && id in s.w.jobs && !Terminal(s.w.jobs[id].status)
    ensures var s := Runs.Exec(Next, INIT, events);
            && id in s.w.cgroups
            && ((s.w.jobs[id].status == Paused <==> s.w.cgroups[id]) <==> !EarlyPausePending(events, id))
  {
    InvAlways(events);
    EarlyIffPending(events, id);
    assert ViewInv(ViewOf(Runs.Exec(Next, INIT, events), id));
  }

  /** Such a pause leaves a job that is listed as paused while its processes run. */
  lemma EarlyPauseIsLost(id: string)
    ensures var events := [Acquire(id, false), RegisterJob(id, 1), Attach(id, 0, 0), PauseJob(id, true),
                           StartBatch(id, true, true)];
            var s := Runs.Exec(Next, INIT, events);
            At(s, id, Executing) && id in s.w.jobs && s.w.jobs[id].status == Paused
            && id in s.w.cgroups && !s.w.cgroups[id]
  {
    var a, b, c, d, e := Acquire(id, false), RegisterJob(id, 1), Attach(id, 0, 0), PauseJob(id, true), StartBatch(id, true, true);
    Runs.ExecFive(Next, INIT, a, b, c, d, e);
    var s4 := Next(Next(Next(Next(INIT, a), b), c), d);
    assert s4.w.jobs[id].status == Paused;
  }
}

/** One connection's run request, executed without interruption on the registry object. */
module ConnectionHandler {
  import opened S = JobStates
  import opened JobLifecycle
  import Registry
  import Runs

  /** How the executor's turn goes; `Stopped` is by another connection, whose thaw may fail. */
  datatype Ending = ThawFails | PayloadLost | Ends(wait: Wait) | TimesOut | Stopped(thaws: bool)

  /** Whether the request needs a network, and whether its setup works. */
  datatype Network = NotNeeded | SetUp | SetupFails

  predicate Possible(tty: bool, ending: Ending) {
    && (tty ==> !ending.ThawFails? && !ending.PayloadLost?)
    && (ending.Ends? && ending.wait.ExitStatus? ==> ending.wait.code != 0)
  }

  /** What ends the context, if anything does. */
  function ContextEvents(id: string, ending: Ending): seq<Event> {
    if ending.TimesOut? then [DeadlinePasses(id)]
    else if ending.Stopped? then [StopJob(id, ending.thaws)]
    else []
  }

  /** How the executor is left. */
  function ExitEvent(id: string, ending: Ending, removed: bool): Event {
    if ending.PayloadLost? then PayloadFails(id, removed)
    else if ending.Ends? then ProcessExits(id, ending.wait, removed)
    else ContextDone(id, removed)
  }

  /** The events of the executor after its start. */
  function EndEvents(id: string, ending: Ending, removed: bool): seq<Event> {
    if ending.ThawFails? then [] else ContextEvents(id, ending) + [ExitEvent(id, ending, removed)]
  }

  function ExecutorEvents(id: string, tty: bool, ending: Ending, removed: bool): seq<Event> {
    [if tty then StartTty(id) else StartBatch(id, !ending.ThawFails?, removed)] + EndEvents(id, ending, removed)
  }

  /** The steps of the connection as events of the daemon. */
  function Script(id: string, tty: bool, pid: int, mem: int, procs: int, ending: Ending, removed: bool, peak: int): seq<Event> {
    [Acquire(id, tty), RegisterJob(id, pid), Attach(id, mem, procs)]
    + ExecutorEvents(id, tty, ending, removed)
    + [Finish(id, peak)]
  }

  /** What the executor returns to the handler. */
  function Outcome(tty: bool, ending: Ending): Result {
    match ending
    case ThawFails => ExecError
    case PayloadLost => ExecError
    case Ends(wait) => ResultOf(tty, wait)
    case TimesOut => Finished(TIMEOUT_EXIT, true)
    case Stopped(_) => Finished(TIMEOUT_EXIT, true)
  }

  function StatusOf(result: Result): Status {
    match result
    case Finished(exitCode, timedOut) => if timedOut then TimedOut else if exitCode == 0 then Completed else Failed
    case ExecError => Failed
  }

  /** The job's record in the end: only a terminal run forgives a wait error, and a stop outweighs the rest. */
  function FinalJob(tty: bool, pid: int, mem: int, procs: int, ending: Ending, peak: int): Job {
    var result := Outcome(tty, ending);
    var status := if ending.Stopped? then Killed else StatusOf(result);
    if result.ExecError? then Job(status, pid, 1, 0, true, true, mem, procs)
    else Job(status, pid, result.exitCode, peak, true, true, mem, procs)
  }

  /** What the executor finds in its `waitErr`. */
  datatype WaitErr = NoError | ContextError | ExitError(code: int) | OtherError

  /** The executor's result: a timeout reads as exit code 124, and a terminal run forgives other wait errors. */
  method ExecutorResult(tty: bool, ending: Ending) returns (result: Result)
    ensures result == Outcome(tty, ending)
    ensures match ending
            case ThawFails => result == ExecError
            case PayloadLost => result == ExecError
            case Ends(Clean) => result == Finished(0, false)
            case Ends(ExitStatus(code)) => result == Finished(code, false)
            case Ends(WaitError) => result == if tty then Finished(0, false) else ExecError
            case TimesOut => result == Finished(124, true)
            case Stopped(_) => result == Finished(124, true)
  {
    if ending.ThawFails? || ending.PayloadLost? {
      return ExecError;
    }
    var waitErr, timedOut, exitCode := NoError, false, 0;
    match ending {
      case TimesOut => waitErr, timedOut := ContextError, true;
      case Stopped(_) => waitErr, timedOut := ContextError, true;
      case Ends(ExitStatus(code)) => waitErr := ExitError(code);
      case Ends(WaitError) => waitErr := OtherError;
      case _ =>
    }
    if waitErr != NoError {
      if waitErr.ExitError? {
        exitCode := waitErr.code;
      } else if timedOut {
        exitCode := TIMEOUT_EXIT;
      } else if !tty {
        return ExecError;
      }
    }
    return Finished(exitCode, timedOut);
  }

  class Daemon {
    const registry: Registry.JobRegistry
    /** The handlers and stop marks of the daemon so far. */
    ghost var s: State

    ghost predicate Valid()
      reads this, registry
    {
      s.w == registry.View()
    }

    constructor (registry: Registry.JobRegistry)
      ensures this.registry == registry && s == State(registry.View(), map[], {}, {}) && Valid()
    {
      this.registry := registry;
      s := State(registry.View(), map[], {}, {});
    }

    /** The ghost state follows one event. */
    ghost method Follow(e: Event, start: State, past: seq<Event>) returns (now: seq<Event>)
      requires s == Runs.Exec(Next, start, past)
      modifies this`s
      ensures now == past + [e] && s == Next(old(s), e) && s == Runs.Exec(Next, start, now)
    {
      Runs.ExecOneMore(Next, start, past, e);
      now := past + [e];
      s := Next(s, e);
    }

    /** Acquire, set up the network, register, attach, execute, finish: the object ends where the script of
        daemon events leads, and the job with the status its ending calls for. Without network no job appears. */
    method HandleRun(id: string, tty: bool, network: Network, pid: int, mem: int, procs: int,
                     ending: Ending, removed: bool, peak: int)
      requires Valid() && id !in s.handlers && id !in s.w.jobs && Possible(tty, ending)
      modifies this, registry
      ensures Valid()
      ensures s == Runs.Exec(Next, old(s), if network.SetupFails? then [Acquire(id, tty), NetworkFails(id)]
                                           else Script(id, tty, pid, mem, procs, ending, removed, peak))
      ensures network.SetupFails? ==> registry.jobs == old(registry.jobs) && id !in registry.cgroups
      ensures !network.SetupFails? ==>
                var (status, exitCode, peakMemory) :=
                  match ending
                  case ThawFails => (Failed, 1, 0)
                  case PayloadLost => (Failed, 1, 0)
                  case Ends(Clean) => (Completed, 0, peak)
                  case Ends(ExitStatus(code)) => (Failed, code, peak)
                  case Ends(WaitError) => if tty then (Completed, 0, peak) else (Failed, 1, 0)
                  case TimesOut => (TimedOut, 124, peak)
                  case Stopped(_) => (Killed, 124, peak);
                registry.jobs == old(registry.jobs)[id := Job(status, pid, exitCode, peakMemory, true, true, mem, procs)]
      ensures !network.SetupFails? ==> id in registry.cancelled && (removed ==> id !in registry.cgroups)
    {
      ghost var start := s;
      if network.SetupFails? {
        GiveUp(id, tty);
        return;
      }
      RunJob(id, tty, pid, mem, procs, ending, removed, peak);
    }

    /** The part of the handler from the registration on. */
    method RunJob(id: string, tty: bool, pid: int, mem: int, procs: int, ending: Ending, removed: bool, peak: int)
      requires Valid() && id !in s.handlers && Possible(tty, ending)
      modifies this, registry
      ensures Valid() && s == Runs.Exec(Next, old(s), Script(id, tty, pid, mem, procs, ending, removed, peak))
      ensures registry.jobs == old(registry.jobs)[id := FinalJob(tty, pid, mem, procs, ending, peak)]
      ensures id in registry.cancelled && (removed ==> id !in registry.cgroups)
    {
      ghost var start := s;
      ghost var past := OpenJob(id, tty, pid, mem, procs);
      past := Execute(id, tty, ending, removed, start, past);
      ReportEnd(id, tty, ending, peak, start, past);
      assert past + [Finish(id, peak)] == Script(id, tty, pid, mem, procs, ending, removed, peak);
    }

    /** Without its network the worker is destroyed; finishing a job that was never registered does nothing. */
    method GiveUp(id: string, tty: bool)
      requires Valid() && id !in s.handlers && id !in s.w.jobs
      modifies this, registry
      ensures Valid() && s == Runs.Exec(Next, old(s), [Acquire(id, tty), NetworkFails(id)])
      ensures registry.jobs == old(registry.jobs) && registry.cgroups == old(registry.cgroups) - {id}
    {
      ghost var start := s;
      ghost var now := AcquireWorker(id, tty);
      registry.cgroups := registry.cgroups - {id};
      registry.UpdateFinished(id, 1, 0, false);
      now := Follow(NetworkFails(id), start, now);
    }

    /** A batch worker comes frozen, a terminal one running. */
    method AcquireWorker(id: string, tty: bool) returns (ghost now: seq<Event>)
      requires Valid() && id !in s.handlers
      modifies this`s, registry`cgroups
      ensures Valid() && now == [Acquire(id, tty)] && s == Runs.Exec(Next, old(s), now)
      ensures registry.cgroups == old(registry.cgroups)[id := !tty]
      ensures s == old(s).(handlers := old(s).handlers[id := Handler(tty, Acquired, false)], w := s.w)
    {
      registry.cgroups := registry.cgroups[id := !tty];
      now := Follow(Acquire(id, tty), s, []);
    }

    method OpenJob(id: string, tty: bool, pid: int, mem: int, procs: int) returns (ghost now: seq<Event>)
      requires Valid() && id !in s.handlers
      modifies this, registry
      ensures Valid() && s == Runs.Exec(Next, old(s), now)
      ensures now == [Acquire(id, tty), RegisterJob(id, pid), Attach(id, mem, procs)]
      ensures id in s.handlers && s.handlers[id].stage == Attached && s.handlers[id].tty == tty && id in s.w.cgroups
      ensures s.w.jobs == old(s).w.jobs[id := Job(Running, pid, 0, 0, true, true, mem, procs)]
    {
      ghost var start := s;
      now := AcquireWorker(id, tty);
      registry.Register(id, pid, true);
      now := Follow(RegisterJob(id, pid), start, now);
      registry.AttachCgroup(id, mem, procs);
      now := Follow(Attach(id, mem, procs), start, now);
    }

    /** A batch executor thaws the cgroup first; a terminal one does not. */
    method StartExecutor(id: string, tty: bool, ending: Ending, removed: bool, ghost start: State, ghost past: seq<Event>)
      returns (ghost now: seq<Event>)
      requires Valid() && Possible(tty, ending)
      requires id in s.handlers && s.handlers[id].stage == Attached && s.handlers[id].tty == tty && id in s.w.cgroups
      requires s == Runs.Exec(Next, start, past)
      modifies this`s, registry`cgroups
      ensures Valid() && s == Runs.Exec(Next, start, now)
      ensures now == past + [if tty then StartTty(id) else StartBatch(id, !ending.ThawFails?, removed)]
      ensures s.w.jobs == old(s).w.jobs && s.w.cancelled == old(s).w.cancelled
      ensures id in s.handlers && s.handlers[id].tty == tty
      ensures s.handlers[id].stage == if ending.ThawFails? then Exited(ExecError) else Executing
      ensures ending.ThawFails? && removed ==> id !in s.w.cgroups
      ensures !tty && !ending.ThawFails? ==> id in s.w.cgroups && !s.w.cgroups[id]
    {
      if tty {
        now := Follow(StartTty(id), start, past);
        return;
      }
      var thawed := registry.WriteFreeze(id, false, !ending.ThawFails?);
      if !thawed && removed {
        registry.cgroups := registry.cgroups - {id};
      }
      now := Follow(StartBatch(id, !ending.ThawFails?, removed), start, past);
    }

    /** The executor's whole turn. */
    method Execute(id: string, tty: bool, ending: Ending, removed: bool, ghost start: State, ghost past: seq<Event>)
      returns (ghost now: seq<Event>)
      requires Valid() && Possible(tty, ending) && s == Runs.Exec(Next, start, past)
      requires id in s.handlers && s.handlers[id].stage == Attached && s.handlers[id].tty == tty && id in s.w.cgroups
      requires id in s.w.jobs && s.w.jobs[id].status == Running && s.w.jobs[id].cancellable
      modifies this`s, registry
      ensures Valid() && s == Runs.Exec(Next, start, now)
      ensures now == past + ExecutorEvents(id, tty, ending, removed)
      ensures id in s.handlers && s.handlers[id].stage == Exited(Outcome(tty, ending))
      ensures s.w.jobs == old(s).w.jobs[id := old(s).w.jobs[id].(status := if ending.Stopped? then Killed else Running)]
      ensures removed ==> id !in s.w.cgroups
    {
      now := StartExecutor(id, tty, ending, removed, start, past);
      now := AwaitEnd(id, tty, ending, removed, start, now);
    }

    /** Waits for the end, the deadline or a stop by another connection, and removes the cgroup. */
    method AwaitEnd(id: string, tty: bool, ending: Ending, removed: bool, ghost start: State, ghost past: seq<Event>)
      returns (ghost now: seq<Event>)
      requires Valid() && Possible(tty, ending)
      requires id in s.handlers && s.handlers[id].tty == tty
      requires s.handlers[id].stage == if ending.ThawFails? then Exited(ExecError) else Executing
      requires ending.ThawFails? && removed ==> id !in s.w.cgroups
      requires id in s.w.jobs && s.w.jobs[id].status == Running && s.w.jobs[id].cancellable
      requires s == Runs.Exec(Next, start, past)
      modifies this`s, registry
      ensures Valid() && s == Runs.Exec(Next, start, now) && now == past + EndEvents(id, ending, removed)
      ensures s.w.jobs == old(s).w.jobs[id := old(s).w.jobs[id].(status := if ending.Stopped? then Killed else Running)]
      ensures removed ==> id !in s.w.cgroups
      ensures id in s.handlers && s.handlers[id].stage == Exited(Outcome(tty, ending))
    {
      now := past;
      if ending.ThawFails? {
        return;
      }
      now := EndContext(id, ending, start, now);
      now := LeaveExecutor(id, ending, removed, start, now);
    }

    /** The executor's deferred removal of the cgroup. */
    method LeaveExecutor(id: string, ending: Ending, removed: bool, ghost start: State, ghost past: seq<Event>)
      returns (ghost now: seq<Event>)
      requires Valid() && s == Runs.Exec(Next, start, past)
      requires id in s.handlers && s.handlers[id].stage == Executing && Possible(s.handlers[id].tty, ending)
      requires !ending.ThawFails? && (ending.TimesOut? || ending.Stopped? ==> ContextEnded(s, id))
      modifies this`s, registry`cgroups
      ensures Valid() && s == Runs.Exec(Next, start, now)
      ensures now == past + [ExitEvent(id, ending, removed)]
      ensures s.w.jobs == old(s).w.jobs && (removed ==> id !in s.w.cgroups)
      ensures id in s.handlers && s.handlers[id].stage == Exited(Outcome(old(s).handlers[id].tty, ending))
    {
      if removed {
        registry.cgroups := registry.cgroups - {id};
      }
      now := Follow(ExitEvent(id, ending, removed), start, past);
    }

    /** The deadline passes, or another connection stops the job. */
    method EndContext(id: string, ending: Ending, ghost start: State, ghost past: seq<Event>)
      returns (ghost now: seq<Event>)
      requires Valid() && s == Runs.Exec(Next, start, past)
      requires id in s.handlers && id in s.w.jobs && s.w.jobs[id].status == Running && s.w.jobs[id].cancellable
      modifies this`s, registry
      ensures Valid() && s == Runs.Exec(Next, start, now)
      ensures now == past + ContextEvents(id, ending)
      ensures id in s.handlers && s.handlers[id].stage == old(s).handlers[id].stage
      ensures s.handlers[id].tty == old(s).handlers[id].tty
      ensures s.w.jobs == old(s).w.jobs[id := old(s).w.jobs[id].(status := if ending.Stopped? then Killed else Running)]
      ensures ending.TimesOut? || ending.Stopped? ==> ContextEnded(s, id)
    {
      now := past;
      if ending.TimesOut? {
        now := Follow(DeadlinePasses(id), start, now);
      } else if ending.Stopped? {
        var _ := registry.Stop(id, ending.thaws);
        now := Follow(StopJob(id, ending.thaws), start, now);
      }
    }

    /** The executor's result, recorded. */
    method ReportEnd(id: string, tty: bool, ending: Ending, peak: int, ghost start: State, ghost past: seq<Event>)
      requires Valid() && Possible(tty, ending) && s == Runs.Exec(Next, start, past)
      requires id in s.handlers && s.handlers[id].stage == Exited(Outcome(tty, ending))
      requires id in s.w.jobs && s.w.jobs[id].status == if ending.Stopped? then Killed else Running
      modifies this, registry
      ensures Valid() && s == Runs.Exec(Next, start, past + [Finish(id, peak)])
      ensures var j := old(registry.jobs[id]);
              registry.jobs == old(registry.jobs)[id :=
                FinalJob(tty, j.pid, j.memLimit, j.procLimit, ending, peak).(attached := j.attached, cancellable := j.cancellable)]
      ensures registry.cgroups == old(registry.cgroups) && id in registry.cancelled
    {
      var result := ExecutorResult(tty, ending);
      RecordEnd(id, result, peak, start, past);
    }

    /** Records the outcome; an executor error counts as exit code 1. The context is cancelled on return. */
    method RecordEnd(id: string, result: Result, peak: int, ghost start: State, ghost past: seq<Event>)
      requires Valid()
      requires id in s.handlers && s.handlers[id].stage == Exited(result)
      requires id in s.w.jobs && (s.w.jobs[id].status == Running || s.w.jobs[id].status == Killed)
      requires s == Runs.Exec(Next, start, past)
      modifies this, registry
      ensures Valid() && s == Runs.Exec(Next, start, past + [Finish(id, peak)])
      ensures id in registry.jobs
      ensures registry.jobs[id].status == if old(s.w.jobs[id].status) == Killed then Killed else StatusOf(result)
      ensures var (exitCode, peakMemory) := if result.ExecError? then (1, 0) else (result.exitCode, peak);
              registry.jobs == old(registry.jobs)[id :=
                old(registry.jobs[id]).(exitCode := exitCode, peakMemory := peakMemory, status := registry.jobs[id].status)]
      ensures registry.cgroups == old(registry.cgroups) && registry.cancelled == old(registry.cancelled) + {id}
    {
      if result.ExecError? {
        registry.UpdateFinished(id, 1, 0, false);
      } else {
        registry.UpdateFinished(id, result.exitCode, peak, result.timedOut);
      }
      registry.cancelled := registry.cancelled + {id};
      ghost var now := Follow(Finish(id, peak), start, past);
    }
  }
}
