/** Workers and the warm pool, one call at a time: acquisition of host resources with rollback,
    prefill, the channel, replenish and close. The interleavings are in PoolProtocol. */
module WarmPool {
  import opened Prelude

  datatype Pipe = Stdin | Stdout | Stderr

  /** What the host holds, by worker id: overlay mounts, cgroups (and which are frozen), processes (and which
      are attached to their cgroup), the daemon's pipe ends and pseudo-terminals. */
  datatype Host = Host(
    overlays: set<string>, cgroups: set<string>, frozen: set<string>, running: set<string>, attached: set<string>,
    pipes: set<(string, Pipe)>, ptys: set<string>)

  /** `mounts` counts the custom mounts. */
  datatype Worker = Worker(id: string, storageMB: int, mounts: nat, tty: bool, command: string, args: seq<string>)

  /** The fallible steps of building a worker. */
  datatype Step =
    | OverlayInit | OverlayMount | CgroupInit | CgroupLimits | SelfPath | Marshal
    | PtyStart | StdinPipe | StdoutPipe | StderrPipe | Start | Attach | Freeze

  /** The steps taken, in order, for each kind of worker. */
  function Path(tty: bool): seq<Step> {
    [OverlayInit, OverlayMount, CgroupInit, CgroupLimits, SelfPath, Marshal]
    + if tty then [PtyStart, Attach] else [StdinPipe, StdoutPipe, StderrPipe, Start, Attach, Freeze]
  }

  /** No step on the path to a worker fails. */
  ghost predicate Builds(tty: bool, fails: Step -> bool) {
    forall s :: s in Path(tty) ==> !fails(s)
  }

  ghost predicate Fresh(h: Host, id: string) {
    && id !in h.overlays && id !in h.cgroups && id !in h.frozen && id !in h.running && id !in h.attached && id !in h.ptys
    && forall p :: (id, p) !in h.pipes
  }

  ghost predicate FreshIds(h: Host, ids: seq<string>) {
    && (forall i, j :: 0 <= i < j < |ids| ==> ids[i] != ids[j])
    && forall i :: 0 <= i < |ids| ==> Fresh(h, ids[i])
  }

  /** The build of slot `i` is the first that fails. */
  ghost predicate StopsAt(fails: seq<Step -> bool>, i: nat) {
    i < |fails| && !Builds(false, fails[i]) && forall k :: 0 <= k < i ==> Builds(false, fails[k])
  }

  /** The workers are the standard warm workers with these ids, in order. */
  ghost predicate Warm(ws: seq<Worker>, ids: seq<string>, limitMB: int) {
    |ws| == |ids| && forall i :: 0 <= i < |ids| ==> ws[i] == WarmWorker(ids[i], limitMB)
  }

  function PipesOf(id: string): set<(string, Pipe)> {
    {(id, Stdin), (id, Stdout), (id, Stderr)}
  }

  /** The host with the pipe ends of these workers more. */
  function WithPipes(h: Host, ids: seq<string>): Host {
    h.(pipes := h.pipes + set id, p | id in ids && p in {Stdin, Stdout, Stderr} :: (id, p))
  }

  /** The host with one complete worker more. */
  function Built(h: Host, id: string, tty: bool): Host {
    var h' := h.(overlays := h.overlays + {id}, cgroups := h.cgroups + {id},
                 running := h.running + {id}, attached := h.attached + {id});
    if tty then h'.(ptys := h.ptys + {id})
    else h'.(pipes := h.pipes + PipesOf(id), frozen := h.frozen + {id})
  }

  // Releasing one resource. Removing a cgroup kills the processes attached to it.
  function CleanupOverlay(h: Host, id: string): Host { h.(overlays := h.overlays - {id}) }
  function CleanupCgroup(h: Host, id: string): Host {
    h.(cgroups := h.cgroups - {id}, frozen := h.frozen - {id}, attached := h.attached - {id},
       running := if id in h.attached then h.running - {id} else h.running)
  }
  function KillProcess(h: Host, id: string): Host { h.(running := h.running - {id}) }
  function ClosePipe(h: Host, id: string, p: Pipe): Host { h.(pipes := h.pipes - {(id, p)}) }
  function ClosePty(h: Host, id: string): Host { h.(ptys := h.ptys - {id}) }

  /** What `Close` does to one idle worker: its pipe ends are not closed. */
  function Drained(h: Host, id: string): Host {
    CleanupOverlay(CleanupCgroup(KillProcess(h.(frozen := h.frozen - {id}), id), id), id)
  }

  function DrainedAll(h: Host, ws: seq<Worker>): Host
    decreases |ws|
  {
    if ws == [] then h else DrainedAll(Drained(h, ws[0].id), ws[1..])
  }

  /** The host after building a batch worker for each id in turn. */
  function BuiltAll(h: Host, ids: seq<string>): Host {
    if ids == [] then h else Built(BuiltAll(h, ids[..|ids| - 1]), ids[|ids| - 1], false)
  }

  /** What the pool hands out without building: batch worker, no network, no mounts, default storage. */
  predicate WarmEligible(requestedMB: int, mounts: nat, tty: bool, network: bool, limitMB: int) {
    !tty && !network && mounts == 0 && requestedMB == limitMB
  }

  lemma PathSteps(tty: bool, fails: Step -> bool)
    ensures Builds(tty, fails) <==>
            && !fails(OverlayInit) && !fails(OverlayMount) && !fails(CgroupInit) && !fails(CgroupLimits)
            && !fails(SelfPath) && !fails(Marshal) && !fails(Attach)
            && (tty ==> !fails(PtyStart))
            && (!tty ==> !fails(StdinPipe) && !fails(StdoutPipe) && !fails(StderrPipe) && !fails(Start) && !fails(Freeze))
  {
    var p := Path(tty);
    assert p[0] == OverlayInit && p[1] == OverlayMount && p[2] == CgroupInit && p[3] == CgroupLimits;
    assert p[4] == SelfPath && p[5] == Marshal;
    if tty {
      assert p[6] == PtyStart && p[7] == Attach;
    } else {
      assert p[6] == StdinPipe && p[7] == StdoutPipe && p[8] == StderrPipe && p[9] == Start && p[10] == Attach && p[11] == Freeze;
    }
  }

  /** The worker every warm slot holds. */
  function WarmWorker(id: string, limitMB: int): Worker {
    Worker(id, limitMB, 0, false, "/bin/sh", ["-s"])
  }

  function CommandOf(cmd: seq<string>): (string, seq<string>) {
    if cmd == [] then ("/bin/sh", ["-s"]) else (cmd[0], cmd[1..])
  }

  datatype SendOutcome = Sent | WouldBlock | Panics

  class Pool {
    const capacity: nat
    const storageLimitMB: int
    /** The buffered channel and whether it was closed. */
    var workers: seq<Worker>
    var channelClosed: bool
    var closed: bool
    var host: Host

    constructor (capacity: int, storageLimitMB: int, host: Host)
      ensures this.capacity == (if capacity <= 0 then 2 else capacity) && this.capacity > 0
      ensures this.storageLimitMB == (if storageLimitMB <= 0 then 64 else storageLimitMB) && this.storageLimitMB > 0
      ensures workers == [] && !channelClosed && !closed && this.host == host
    {
      this.capacity := if capacity <= 0 then 2 else capacity;
      this.storageLimitMB := if storageLimitMB <= 0 then 64 else storageLimitMB;
      workers, channelClosed, closed := [], false, false;
      this.host := host;
    }

    /** All or nothing: with a fresh id, either one complete worker is added to the host or the host is
        as before, and it is added exactly when no step on its path fails. */
    method SpawnWorker(id: string, storageMB: int, mounts: nat, tty: bool, cmd: seq<string>, fails: Step -> bool)
      returns (w: Option<Worker>)
      modifies this`host
      ensures w.Some? <==> Builds(tty, fails)
      ensures w.Some? ==> w.value == Worker(id, storageMB, mounts, tty, CommandOf(cmd).0, CommandOf(cmd).1)
      ensures w.Some? ==> if cmd == [] then w.value.command == "/bin/sh" && w.value.args == ["-s"]
                          else [w.value.command] + w.value.args == cmd
      ensures w.Some? ==> id in host.overlays && id in host.cgroups && id in host.running && id in host.attached
      ensures w.Some? ==> if tty then id in host.ptys
                          else id in host.frozen && {(id, Stdin), (id, Stdout), (id, Stderr)} <= host.pipes
      ensures Fresh(old(host), id) ==> host == if w.Some? then Built(old(host), id, tty) else old(host)
    {
      var ok := Provision(id, fails);
      PathSteps(tty, fails);
      if !ok {
        return None;
      }
      var command, args := "/bin/sh", ["-s"];
      if |cmd| > 0 {
        command, args := cmd[0], if |cmd| > 1 then cmd[1..] else [];
      }
      if tty {
        ok := StartPty(id, fails);
      } else {
        ok := OpenPipesAndStart(id, fails);
      }
      if ok {
        w := Some(Worker(id, storageMB, mounts, tty, command, args));
      } else {
        w := None;
      }
    }

    /** The common half: overlay, cgroup and limits, up to the encoded configuration. */
    method Provision(id: string, fails: Step -> bool) returns (ok: bool)
      modifies this`host
      ensures ok <==> !fails(OverlayInit) && !fails(OverlayMount) && !fails(CgroupInit) && !fails(CgroupLimits)
                      && !fails(SelfPath) && !fails(Marshal)
      ensures ok ==> host == old(host).(overlays := old(host).overlays + {id}, cgroups := old(host).cgroups + {id})
      ensures !ok && Fresh(old(host), id) ==> host == old(host)
    {
      if fails(OverlayInit) {
        return false;
      }
      host := host.(overlays := host.overlays + {id});
      if fails(OverlayMount) || fails(CgroupInit) {
        host := CleanupOverlay(host, id);
        return false;
      }
      host := host.(cgroups := host.cgroups + {id});
      if fails(CgroupLimits) || fails(SelfPath) || fails(Marshal) {
        host := CleanupOverlay(CleanupCgroup(host, id), id);
        return false;
      }
      return true;
    }

    /** The terminal half: start on a pseudo-terminal, attach. */
    method StartPty(id: string, fails: Step -> bool) returns (ok: bool)
      modifies this`host
      ensures ok <==> !fails(PtyStart) && !fails(Attach)
      ensures ok ==> host == old(host).(running := old(host).running + {id}, ptys := old(host).ptys + {id},
                                        attached := old(host).attached + {id})
      ensures !ok && id !in old(host).ptys + old(host).running ==> host == CleanupOverlay(CleanupCgroup(old(host), id), id)
    {
      if fails(PtyStart) {
        host := CleanupOverlay(CleanupCgroup(host, id), id);
        return false;
      }
      host := host.(running := host.running + {id}, ptys := host.ptys + {id});
      if fails(Attach) {
        host := ClosePty(KillProcess(host, id), id);
        host := CleanupOverlay(CleanupCgroup(host, id), id);
        return false;
      }
      host := host.(attached := host.attached + {id});
      return true;
    }

    /** The batch half: three pipes, start, attach, freeze; each failure undoes what came before. */
    method OpenPipesAndStart(id: string, fails: Step -> bool) returns (ok: bool)
      modifies this`host
      ensures ok <==> !fails(StdinPipe) && !fails(StdoutPipe) && !fails(StderrPipe) && !fails(Start)
                      && !fails(Attach) && !fails(Freeze)
      ensures ok ==> host == old(host).(pipes := old(host).pipes + PipesOf(id), running := old(host).running + {id},
                                        attached := old(host).attached + {id}, frozen := old(host).frozen + {id})
      ensures !ok && id !in old(host).running && (forall p :: (id, p) !in old(host).pipes) ==>
                host == CleanupOverlay(CleanupCgroup(old(host), id), id)
    {
      if fails(StdinPipe) {
        host := CleanupOverlay(CleanupCgroup(host, id), id);
        return false;
      }
      host := host.(pipes := host.pipes + {(id, Stdin)});
      if fails(StdoutPipe) {
        host := CleanupOverlay(CleanupCgroup(ClosePipe(host, id, Stdin), id), id);
        return false;
      }
      host := host.(pipes := host.pipes + {(id, Stdout)});
      if fails(StderrPipe) {
        host := ClosePipe(ClosePipe(host, id, Stdin), id, Stdout);
        host := CleanupOverlay(CleanupCgroup(host, id), id);
        return false;
      }
      host := host.(pipes := host.pipes + {(id, Stderr)});
      if fails(Start) {
        host := ClosePipe(ClosePipe(ClosePipe(host, id, Stdin), id, Stdout), id, Stderr);
        host := CleanupOverlay(CleanupCgroup(host, id), id);
        return false;
      }
      host := host.(running := host.running + {id});
      if fails(Attach) {
        host := KillProcess(host, id);
        host := ClosePipe(ClosePipe(ClosePipe(host, id, Stdin), id, Stdout), id, Stderr);
        host := CleanupOverlay(CleanupCgroup(host, id), id);
        return false;
      }
      host := host.(attached := host.attached + {id});
      if fails(Freeze) {
        host := KillProcess(host, id);
        host := ClosePipe(ClosePipe(ClosePipe(host, id, Stdin), id, Stdout), id, Stderr);
        host := CleanupOverlay(CleanupCgroup(host, id), id);
        return false;
      }
      host := host.(frozen := host.frozen + {id});
      return true;
    }

    /** `Worker.Destroy` takes back all that building the worker added. */
    method Destroy(w: Worker, ghost before: Host)
      requires Fresh(before, w.id) && host == Built(before, w.id, w.tty)
      modifies this`host
      ensures host == before
    {
      host := host.(frozen := host.frozen - {w.id});
      host := ClosePipe(ClosePipe(ClosePipe(host, w.id, Stdin), w.id, Stdout), w.id, Stderr);
      host := ClosePty(host, w.id);
      host := KillProcess(host, w.id);
      host := CleanupCgroup(host, w.id);
      host := CleanupOverlay(host, w.id);
    }

    /** A channel send: it panics on a closed channel and blocks on a full one. */
    method Send(w: Worker) returns (outcome: SendOutcome)
      modifies this`workers
      ensures outcome == if channelClosed then Panics else if |old(workers)| >= capacity then WouldBlock else Sent
      ensures workers == if outcome.Sent? then old(workers) + [w] else old(workers)
    {
      if channelClosed {
        return Panics;
      }
      if |workers| >= capacity {
        return WouldBlock;
      }
      workers := workers + [w];
      return Sent;
    }

    /** The first `i` slots hold standard workers with the first `i` ids, and `before` has grown by just these. */
    ghost predicate Filled(before: Host, ids: seq<string>, i: nat)
      reads this
    {
      && i <= |ids| && |workers| == i && !closed && !channelClosed
      && Warm(workers, ids[..i], storageLimitMB) && host == BuiltAll(before, ids[..i])
    }

    /** One round of the prefill: build a warm worker and send it; with a free slot the send goes through. */
    method FillSlot(ghost before: Host, ghost ids: seq<string>, ghost i: nat, id: string, fails: Step -> bool)
      returns (ok: bool)
      requires FreshIds(before, ids) && Filled(before, ids, i) && i < |ids| <= capacity && ids[i] == id
      modifies this`workers, this`host
      ensures ok <==> Builds(false, fails)
      ensures Filled(before, ids, if ok then i + 1 else i)
    {
      StillFresh(before, ids, i);
      ghost var soFar := workers;
      var w := SpawnWorker(id, storageLimitMB, 0, false, [], fails);
      if w.None? {
        return false;
      }
      var outcome := Send(w.value);
      assert outcome.Sent?;
      OneMoreSlot(before, soFar, ids, i, storageLimitMB);
      return true;
    }

    /** Fills every slot, or closes what was built and reports failure. No send blocks or panics. A failed
        prefill leaves exactly the pipe ends of the workers it had built, so the host is as before if and only
        if the very first build fails. */
    method Prefill(ids: seq<string>, fails: seq<Step -> bool>) returns (ok: bool)
      requires |ids| == |fails| == capacity && workers == [] && !closed && !channelClosed
      requires FreshIds(host, ids)
      modifies this
      ensures ok <==> forall i :: 0 <= i < |ids| ==> Builds(false, fails[i])
      ensures ok ==> Filled(old(host), ids, capacity)
      ensures ok ==> |workers| == capacity && forall i :: 0 <= i < capacity ==>
                workers[i] == Worker(ids[i], storageLimitMB, 0, false, "/bin/sh", ["-s"]) && ids[i] in host.frozen
      ensures !ok ==> closed && workers == []
      ensures !ok ==> exists i: nat :: StopsAt(fails, i) && host == WithPipes(old(host), ids[..i])
      ensures !ok ==> |fails| > 0 && (host == old(host) <==> !Builds(false, fails[0]))
      ensures !ok && Builds(false, fails[0]) ==> {(ids[0], Stdin), (ids[0], Stdout), (ids[0], Stderr)} <= host.pipes
    {
      var i := 0;
      while i < capacity
        invariant 0 <= i <= capacity && Filled(old(host), ids, i)
        invariant forall k :: 0 <= k < i ==> Builds(false, fails[k])
      {
        var filled := FillSlot(old(host), ids, i, ids[i], fails[i]);
        if !filled {
          DrainRestores(old(host), ids, i, workers, storageLimitMB);
          Close();
          PipesStay(old(host), ids, i);
          assert StopsAt(fails, i);
          return false;
        }
        i := i + 1;
      }
      FilledInDetail(old(host), ids, workers, host, storageLimitMB);
      return true;
    }

    /** Takes an idle worker, or reports what the caller gets otherwise. */
    method TryReceive() returns (received: bool, w: Option<Worker>)
      modifies this`workers
      ensures received <==> old(workers) != [] || channelClosed
      ensures w == if old(workers) != [] then Some(old(workers)[0]) else None
      ensures workers == if old(workers) != [] then old(workers)[1..] else []
    {
      if workers != [] {
        w := Some(workers[0]);
        workers := workers[1..];
        return true, w;
      }
      return channelClosed, None;
    }

    /** The warm path hands out the oldest idle worker; every other request builds its own to the caller's
        wishes. `received` without a worker is the nil worker of a closed pool. */
    method AcquireCustom(requestedMB: int, mounts: nat, tty: bool, cmd: seq<string>, network: bool,
                         id: string, fails: Step -> bool)
      returns (received: bool, w: Option<Worker>)
      modifies this`workers, this`host
      ensures var mb := if requestedMB <= 0 then storageLimitMB else requestedMB;
              var warm := WarmEligible(mb, mounts, tty, network, storageLimitMB);
              && (received <==> warm && (old(workers) != [] || channelClosed))
              && (received ==> host == old(host) && w == if old(workers) != [] then Some(old(workers)[0]) else None)
              && workers == (if received && old(workers) != [] then old(workers)[1..] else old(workers))
              && (!received ==> (w.Some? <==> Builds(tty, fails)))
              && (!received && Fresh(old(host), id) ==> host == if w.Some? then Built(old(host), id, tty) else old(host))
              && (!received && w.Some? ==>
                    w.value == if warm then WarmWorker(id, storageLimitMB)
                               else Worker(id, mb, mounts, tty, CommandOf(cmd).0, CommandOf(cmd).1))
      ensures var mb := if requestedMB <= 0 then storageLimitMB else requestedMB;
              && (tty || network || mounts > 0 || mb != storageLimitMB ==> !received && workers == old(workers))
              && (!tty && !network && mounts == 0 && mb == storageLimitMB && old(workers) != [] ==>
                    received && w == Some(old(workers)[0]) && workers == old(workers)[1..])
              && ((forall v :: v in old(workers) ==> v.storageMB == storageLimitMB && v.mounts == 0 && !v.tty) && w.Some? ==>
                    w.value.storageMB == mb && w.value.mounts == mounts && w.value.tty == tty)
              && (w.Some? && (tty || network || mounts > 0 || mb != storageLimitMB) && cmd != [] ==>
                    [w.value.command] + w.value.args == cmd)
    {
      var mb := if requestedMB <= 0 then storageLimitMB else requestedMB;
      received := false;
      if !tty && !network && mounts == 0 && mb == storageLimitMB {
        received, w := TryReceive();
        if !received {
          w := SpawnWorker(id, mb, 0, false, [], fails);
        }
      } else {
        w := SpawnWorker(id, mb, mounts, tty, cmd, fails);
      }
    }

    /** The body of `replenish` under the mutex. */
    method Replenish(id: string, fails: Step -> bool) returns (outcome: Option<SendOutcome>)
      modifies this`workers, this`host
      ensures closed ==> outcome == None && host == old(host)
      ensures !closed ==> (outcome.Some? <==> Builds(false, fails))
      ensures outcome.Some? ==>
                outcome.value == if channelClosed then Panics else if |old(workers)| >= capacity then WouldBlock else Sent
      ensures workers == if outcome == Some(Sent) then old(workers) + [WarmWorker(id, storageLimitMB)] else old(workers)
      ensures workers != old(workers) ==> workers == old(workers) + [Worker(id, storageLimitMB, 0, false, "/bin/sh", ["-s"])]
      ensures Fresh(old(host), id) ==> host == if outcome.Some? then Built(old(host), id, false) else old(host)
    {
      if closed {
        return None;
      }
      var w := SpawnWorker(id, storageLimitMB, 0, false, [], fails);
      if w.Some? {
        var sent := Send(w.value);
        return Some(sent);
      }
      return None;
    }

    /** Closes once; drains the channel, destroying each idle worker. */
    method Close()
      modifies this`closed, this`channelClosed, this`workers, this`host
      ensures closed
      ensures old(closed) ==> workers == old(workers) && host == old(host) && channelClosed == old(channelClosed)
      ensures !old(closed) ==> channelClosed && workers == [] && host == DrainedAll(old(host), old(workers))
    {
      if closed {
        return;
      }
      closed := true;
      channelClosed := true;
      while workers != []
        invariant closed && channelClosed
        invariant DrainedAll(host, workers) == DrainedAll(old(host), old(workers))
        decreases |workers|
      {
        host := Drained(host, workers[0].id);
        workers := workers[1..];
      }
    }
  }

  lemma {:induction false} FreshAfter(h: Host, ids: seq<string>, id: string)
    requires Fresh(h, id) && id !in ids
    ensures Fresh(BuiltAll(h, ids), id)
  {
    if ids != [] {
      FreshAfter(h, ids[..|ids| - 1], id);
    }
  }

  lemma StillFresh(h: Host, ids: seq<string>, i: nat)
    requires i < |ids| && FreshIds(h, ids)
    ensures Fresh(BuiltAll(h, ids[..i]), ids[i]) && FreshIds(h, ids[..i])
  {
    FreshAfter(h, ids[..i], ids[i]);
  }

  lemma OneMoreSlot(h: Host, ws: seq<Worker>, ids: seq<string>, i: nat, limitMB: int)
    requires i < |ids| && Warm(ws, ids[..i], limitMB)
    ensures Warm(ws + [WarmWorker(ids[i], limitMB)], ids[..i + 1], limitMB)
    ensures BuiltAll(h, ids[..i + 1]) == Built(BuiltAll(h, ids[..i]), ids[i], false)
  {
    assert ids[..i + 1][..i] == ids[..i];
  }

  function IdsOf(ws: seq<Worker>): set<string> {
    set w | w in ws :: w.id
  }

  /** Draining takes away exactly the drained workers' overlays, cgroups and processes; pipe ends stay. */
  lemma {:induction false} DrainedSets(h: Host, ws: seq<Worker>)
    ensures DrainedAll(h, ws) ==
            h.(overlays := h.overlays - IdsOf(ws), cgroups := h.cgroups - IdsOf(ws),
               running := h.running - IdsOf(ws), attached := h.attached - IdsOf(ws), frozen := h.frozen - IdsOf(ws))
    decreases |ws|
  {
    if ws != [] {
      DrainedSets(Drained(h, ws[0].id), ws[1..]);
      assert IdsOf(ws) == {ws[0].id} + IdsOf(ws[1..]) by {
        assert ws == [ws[0]] + ws[1..];
      }
    }
  }

  lemma {:induction false} BuiltSets(h: Host, ids: seq<string>)
    ensures var added := set id | id in ids;
            BuiltAll(h, ids) ==
            h.(overlays := h.overlays + added, cgroups := h.cgroups + added, running := h.running + added,
               attached := h.attached + added, frozen := h.frozen + added, pipes := BuiltAll(h, ids).pipes)
  {
    if ids != [] {
      var init, last := ids[..|ids| - 1], ids[|ids| - 1];
      BuiltSets(h, init);
      assert ids == init + [last];
      assert (set id | id in ids) == (set id | id in init) + {last};
    }
  }

  lemma {:induction false} BuiltPipes(h: Host, ids: seq<string>)
    ensures BuiltAll(h, ids).pipes == WithPipes(h, ids).pipes
  {
    if ids == [] {
      assert WithPipes(h, ids).pipes == h.pipes;
    } else {
      var init, last := ids[..|ids| - 1], ids[|ids| - 1];
      BuiltPipes(h, init);
      assert ids == init + [last];
      assert WithPipes(h, ids).pipes == WithPipes(h, init).pipes + PipesOf(last);
    }
  }

  lemma SameIds(ids: seq<string>, ws: seq<Worker>)
    requires |ids| == |ws| && forall i :: 0 <= i < |ws| ==> ws[i].id == ids[i]
    ensures IdsOf(ws) == set id | id in ids
  {
    forall id | id in ids ensures id in IdsOf(ws) {
      var i :| 0 <= i < |ids| && ids[i] == id;
      assert ws[i] in ws;
    }
  }

  lemma AddThenRemove(s: set<string>, added: set<string>)
    requires s !! added
    ensures (s + added) - added == s
  {
  }

  lemma FilledInDetail(h: Host, ids: seq<string>, ws: seq<Worker>, now: Host, limitMB: int)
    requires Warm(ws, ids[..|ids|], limitMB) && now == BuiltAll(h, ids[..|ids|])
    ensures |ws| == |ids| && forall i :: 0 <= i < |ids| ==>
              ws[i] == Worker(ids[i], limitMB, 0, false, "/bin/sh", ["-s"]) && ids[i] in now.frozen
  {
    assert ids[..|ids|] == ids;
    BuiltSets(h, ids);
  }

  lemma FirstFresh(h: Host, ids: seq<string>, i: nat)
    requires FreshIds(h, ids) && i <= |ids|
    ensures var added := set id | id in ids[..i];
            h.overlays !! added && h.cgroups !! added && h.running !! added && h.attached !! added && h.frozen !! added
  {
    assert forall k :: 0 <= k < i ==> Fresh(h, ids[k]);
  }

  /** Draining what a prefill built so far gives back all but the pipe ends. */
  lemma DrainRestores(h: Host, ids: seq<string>, i: nat, ws: seq<Worker>, limitMB: int)
    requires FreshIds(h, ids) && i <= |ids| && Warm(ws, ids[..i], limitMB)
    ensures DrainedAll(BuiltAll(h, ids[..i]), ws) == WithPipes(h, ids[..i])
  {
    var added := set id | id in ids[..i];
    FirstFresh(h, ids, i);
    BuiltSets(h, ids[..i]);
    BuiltPipes(h, ids[..i]);
    DrainedSets(BuiltAll(h, ids[..i]), ws);
    SameIds(ids[..i], ws);
    AddThenRemove(h.overlays, added);
    AddThenRemove(h.cgroups, added);
    AddThenRemove(h.running, added);
    AddThenRemove(h.attached, added);
    AddThenRemove(h.frozen, added);
  }

  /** Pipe ends of fresh workers are really additional. */
  lemma PipesStay(h: Host, ids: seq<string>, i: nat)
    requires FreshIds(h, ids) && i <= |ids|
    ensures WithPipes(h, ids[..i]) == h <==> i == 0
    ensures i > 0 ==> {(ids[0], Stdin), (ids[0], Stdout), (ids[0], Stderr)} <= WithPipes(h, ids[..i]).pipes
  {
    if i > 0 {
      assert Fresh(h, ids[0]) && ids[0] in ids[..i];
      assert (ids[0], Stdin) in WithPipes(h, ids[..i]).pipes;
    } else {
      assert WithPipes(h, ids[..i]).pipes == h.pipes;
    }
  }
}
