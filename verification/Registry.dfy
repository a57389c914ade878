/** What each registry operation does to a job's status, its cgroup and its context. */
module JobStates {

  datatype Status = Running | Paused | Completed | Failed | TimedOut | Killed

  predicate Terminal(s: Status) { !s.Running? && !s.Paused? }

  /** `attached` says whether a cgroup was attached, `cancellable` whether a cancel function was given. */
  datatype Job = Job(status: Status, pid: int, exitCode: int, peakMemory: int, attached: bool, cancellable: bool,
                     memLimit: int, procLimit: int)

  /** The registry and what it acts on: existing cgroups with their frozen flag, and cancelled contexts.
      All are named by the worker id. */
  datatype World = World(jobs: map<string, Job>, cgroups: map<string, bool>, cancelled: set<string>)

  function SetJob(w: World, id: string, j: Job): World { w.(jobs := w.jobs[id := j]) }

  /** Writing the freeze file succeeds only while the cgroup exists. */
  predicate CanWrite(w: World, id: string, ok: bool) { ok && id in w.cgroups }

  function Register(w: World, id: string, pid: int, cancellable: bool): World {
    SetJob(w, id, Job(Running, pid, 0, 0, false, cancellable, 0, 0))
  }

  function AttachCgroup(w: World, id: string, memLimit: int, procLimit: int): World {
    if id !in w.jobs then w
    else SetJob(w, id, w.jobs[id].(attached := true, memLimit := memLimit, procLimit := procLimit))
  }

  function UpdateFinished(w: World, id: string, exitCode: int, peakMemory: int, timedOut: bool): World {
    if id !in w.jobs then w
    else
      var j := w.jobs[id].(exitCode := exitCode, peakMemory := peakMemory);
      SetJob(w, id,
        if j.status == Killed then j
        else j.(status := if timedOut then TimedOut else if exitCode == 0 then Completed else Failed))
  }

  predicate PauseOk(w: World, id: string, freezes: bool) {
    id in w.jobs && w.jobs[id].status == Running && w.jobs[id].attached && CanWrite(w, id, freezes)
  }

  function Pause(w: World, id: string, freezes: bool): World {
    if PauseOk(w, id, freezes)
    then SetJob(w, id, w.jobs[id].(status := Paused)).(cgroups := w.cgroups[id := true])
    else w
  }

  predicate UnpauseOk(w: World, id: string, thaws: bool) {
    id in w.jobs && w.jobs[id].status == Paused && w.jobs[id].attached && CanWrite(w, id, thaws)
  }

  function Unpause(w: World, id: string, thaws: bool): World {
    if UnpauseOk(w, id, thaws)
    then SetJob(w, id, w.jobs[id].(status := Running)).(cgroups := w.cgroups[id := false])
    else w
  }

  predicate StopOk(w: World, id: string) {
    id in w.jobs && !Terminal(w.jobs[id].status)
  }

  function Stop(w: World, id: string, thaws: bool): World {
    if !StopOk(w, id) then w
    else
      var j := w.jobs[id];
      var w' := if j.status == Paused && j.attached && CanWrite(w, id, thaws) then w.(cgroups := w.cgroups[id := false]) else w;
      SetJob(w', id, j.(status := Killed)).(cancelled := if j.cancellable then w.cancelled + {id} else w.cancelled)
  }

  /** The registry alone does not protect a terminal status: a second finish keeps it exactly when the job
      was killed or the second outcome maps to the same status. */
  lemma SecondFinishKeepsStatusIff(w: World, id: string, exitCode: int, peakMemory: int, timedOut: bool)
    requires id in w.jobs && Terminal(w.jobs[id].status)
    ensures UpdateFinished(w, id, exitCode, peakMemory, timedOut).jobs[id].status == w.jobs[id].status
            <==> || w.jobs[id].status == Killed
                 || (w.jobs[id].status == TimedOut && timedOut)
                 || (w.jobs[id].status == Completed && !timedOut && exitCode == 0)
                 || (w.jobs[id].status == Failed && !timedOut && exitCode != 0)
  {
  }

  /** Pausing and unpausing a job whose cgroup obeys brings the world back. */
  lemma UnpauseUndoesPause(w: World, id: string)
    requires PauseOk(w, id, true) && w.cgroups[id] == false
    ensures Unpause(Pause(w, id, true), id, true) == w
  {
    var w' := Unpause(Pause(w, id, true), id, true);
    assert w'.jobs == w.jobs && w'.cgroups == w.cgroups;
  }
}

/** The registry object: its methods run under its lock, one at a time. */
module Registry {
  import S = JobStates

  class JobRegistry {
    var jobs: map<string, S.Job>
    /** The host's cgroups and the contexts, which the stored controllers and cancel functions act on. */
    var cgroups: map<string, bool>
    var cancelled: set<string>

    constructor (cgroups: map<string, bool>)
      ensures View() == S.World(map[], cgroups, {})
    {
      jobs, this.cgroups, cancelled := map[], cgroups, {};
    }

    function View(): S.World
      reads this
    {
      S.World(jobs, cgroups, cancelled)
    }

    method WriteFreeze(id: string, frozen: bool, works: bool) returns (ok: bool)
      modifies this`cgroups
      ensures ok == S.CanWrite(old(View()), id, works)
      ensures ok <==> works && id in old(cgroups)
      ensures cgroups == if ok then old(cgroups)[id := frozen] else old(cgroups)
    {
      ok := works && id in cgroups;
      if ok {
        cgroups := cgroups[id := frozen];
      }
    }

    method Register(id: string, pid: int, cancellable: bool)
      modifies this`jobs
      ensures View() == S.Register(old(View()), id, pid, cancellable)
      ensures jobs == old(jobs)[id := S.Job(S.Running, pid, 0, 0, false, cancellable, 0, 0)]
    {
      jobs := jobs[id := S.Job(S.Running, pid, 0, 0, false, cancellable, 0, 0)];
    }

    method AttachCgroup(id: string, memLimit: int, procLimit: int)
      modifies this`jobs
      ensures View() == S.AttachCgroup(old(View()), id, memLimit, procLimit)
      ensures id !in old(jobs) ==> jobs == old(jobs)
      ensures id in old(jobs) ==>
                jobs == old(jobs)[id := old(jobs[id]).(attached := true, memLimit := memLimit, procLimit := procLimit)]
    {
      if id in jobs {
        jobs := jobs[id := jobs[id].(attached := true, memLimit := memLimit, procLimit := procLimit)];
      }
    }

    method UpdateFinished(id: string, exitCode: int, peakMemory: int, timedOut: bool)
      modifies this`jobs
      ensures View() == S.UpdateFinished(old(View()), id, exitCode, peakMemory, timedOut)
      ensures id !in old(jobs) ==> jobs == old(jobs)
      ensures id in old(jobs) ==>
                && jobs == old(jobs)[id := old(jobs[id]).(exitCode := exitCode, peakMemory := peakMemory, status := jobs[id].status)]
                && jobs[id].status == (if old(jobs[id].status) == S.Killed then S.Killed
                                       else if timedOut then S.TimedOut
                                       else if exitCode == 0 then S.Completed
                                       else S.Failed)
    {
      if id !in jobs {
        return;
      }
      jobs := jobs[id := jobs[id].(exitCode := exitCode, peakMemory := peakMemory)];
      if jobs[id].status == S.Killed {
        return;
      }
      if timedOut {
        jobs := jobs[id := jobs[id].(status := S.TimedOut)];
      } else if exitCode == 0 {
        jobs := jobs[id := jobs[id].(status := S.Completed)];
      } else {
        jobs := jobs[id := jobs[id].(status := S.Failed)];
      }
    }

    method Pause(id: string, freezes: bool) returns (ok: bool)
      modifies this`jobs, this`cgroups
      ensures ok == S.PauseOk(old(View()), id, freezes)
      ensures View() == S.Pause(old(View()), id, freezes)
      ensures ok <==> id in old(jobs) && old(jobs[id].status) == S.Running && old(jobs[id].attached)
                      && freezes && id in old(cgroups)
      ensures ok ==> jobs == old(jobs)[id := old(jobs[id]).(status := S.Paused)] && cgroups == old(cgroups)[id := true]
      ensures !ok ==> jobs == old(jobs) && cgroups == old(cgroups)
    {
      if id !in jobs || jobs[id].status != S.Running || !jobs[id].attached {
        return false;
      }
      ok := WriteFreeze(id, true, freezes);
      if ok {
        jobs := jobs[id := jobs[id].(status := S.Paused)];
      }
    }

    method Unpause(id: string, thaws: bool) returns (ok: bool)
      modifies this`jobs, this`cgroups
      ensures ok == S.UnpauseOk(old(View()), id, thaws)
      ensures View() == S.Unpause(old(View()), id, thaws)
      ensures ok <==> id in old(jobs) && old(jobs[id].status) == S.Paused && old(jobs[id].attached)
                      && thaws && id in old(cgroups)
      ensures ok ==> jobs == old(jobs)[id := old(jobs[id]).(status := S.Running)] && cgroups == old(cgroups)[id := false]
      ensures !ok ==> jobs == old(jobs) && cgroups == old(cgroups)
    {
      if id !in jobs || jobs[id].status != S.Paused || !jobs[id].attached {
        return false;
      }
      ok := WriteFreeze(id, false, thaws);
      if ok {
        jobs := jobs[id := jobs[id].(status := S.Running)];
      }
    }

    method Stop(id: string, thaws: bool) returns (ok: bool)
      modifies this
      ensures ok == S.StopOk(old(View()), id)
      ensures View() == S.Stop(old(View()), id, thaws)
      ensures ok <==> id in old(jobs) && (old(jobs[id].status) == S.Running || old(jobs[id].status) == S.Paused)
      ensures ok ==> jobs == old(jobs)[id := old(jobs[id]).(status := S.Killed)]
      ensures ok ==> cancelled == if old(jobs[id].cancellable) then old(cancelled) + {id} else old(cancelled)
      ensures ok ==> cgroups == if old(jobs[id].status) == S.Paused && old(jobs[id].attached) && thaws && id in old(cgroups)
                                then old(cgroups)[id := false] else old(cgroups)
      ensures !ok ==> jobs == old(jobs) && cgroups == old(cgroups) && cancelled == old(cancelled)
    {
      if id !in jobs || (jobs[id].status != S.Running && jobs[id].status != S.Paused) {
        return false;
      }
      if jobs[id].status == S.Paused && jobs[id].attached {
        var _ := WriteFreeze(id, false, thaws);
      }
      jobs := jobs[id := jobs[id].(status := S.Killed)];
      if jobs[id].cancellable {
        cancelled := cancelled + {id};
      }
      return true;
    }
  }
}
