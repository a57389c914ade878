/** The warm pool under concurrency: acquirers, replenishers and closers interleave on one channel,
    one mutex and one `closed` flag. */
module PoolProtocol {
  import opened WarmPool
  import Runs

  type Tid = nat

  /** Who holds the mutex, and how far that call is. */
  datatype Mutex =
    | Free
    | Spawning(t: Tid)
    | Sending(t: Tid, w: Worker)
    | Draining(t: Tid)

  /** `received` are acquirers that took a worker and still have to launch a replenisher, `waiting` the
      launched replenishers without the mutex, `failed` the replenishes that built nothing. `holders` are the
      workers handed out and `gone` those destroyed; `spawned` is every worker ever built. */
  datatype State = State(
    capacity: nat, limitMB: int,
    channel: seq<Worker>, channelClosed: bool, closed: bool, mutex: Mutex,
    received: set<Tid>, waiting: set<Tid>, closers: set<Tid>, nils: set<Tid>, failed: nat,
    holders: seq<Worker>, gone: seq<Worker>, spawned: set<Worker>, frozen: set<string>, panicked: bool)

  datatype Event =
    | Receive(t: Tid)
    | Fallback(t: Tid, w: Worker)
    | Launch(t: Tid)
    | ReplenishLock(t: Tid)
    | ReplenishSpawn(id: string, ok: bool)
    | ReplenishSend
    | CallClose(t: Tid)
    | CloseLock(t: Tid)
    | Drain
    | Thaw(k: nat)
    | Finish(k: nat)

  ghost predicate Unused(s: State, id: string) {
    forall w :: w in s.spawned ==> w.id != id
  }

  predicate NewThread(s: State, t: Tid) {
    t !in s.received && t !in s.waiting && t !in s.nils && t !in s.closers
  }

  ghost function Next(s: State, e: Event): State {
    match e
    case Receive(t) =>
      // the select of an eligible acquisition: an idle worker, or nil from a closed, drained channel
      if !NewThread(s, t) then s
      else if s.channel != [] then
        s.(channel := s.channel[1..], received := s.received + {t}, holders := s.holders + [s.channel[0]])
      else if s.channelClosed then s.(nils := s.nils + {t}, waiting := s.waiting + {t})
      else s
    case Fallback(t, w) =>
      // an on-demand worker, built outside the pool
      if NewThread(s, t) && Unused(s, w.id) then
        s.(spawned := s.spawned + {w}, holders := s.holders + [w],
           frozen := if w.tty then s.frozen else s.frozen + {w.id})
      else s
    case Launch(t) =>
      if t in s.received && t !in s.waiting then s.(received := s.received - {t}, waiting := s.waiting + {t}) else s
    case ReplenishLock(t) =>
      if t in s.waiting && s.mutex.Free? then
        s.(waiting := s.waiting - {t}, mutex := if s.closed then Free else Spawning(t))
      else s
    case ReplenishSpawn(id, ok) =>
      if !s.mutex.Spawning? then s
      else if !ok then s.(mutex := Free, failed := s.failed + 1)
      else if Unused(s, id) then
        var w := WarmWorker(id, s.limitMB);
        s.(spawned := s.spawned + {w}, mutex := Sending(s.mutex.t, w), frozen := s.frozen + {id})
      else s
    case ReplenishSend =>
      if !s.mutex.Sending? then s
      else if s.channelClosed then s.(panicked := true)
      else if |s.channel| < s.capacity then s.(channel := s.channel + [s.mutex.w], mutex := Free)
      else s
    case CallClose(t) =>
      if NewThread(s, t) then s.(closers := s.closers + {t}) else s
    case CloseLock(t) =>
      if t in s.closers && s.mutex.Free? then
        if s.closed then s.(closers := s.closers - {t})
        else if s.channelClosed then s.(panicked := true)
        else s.(closers := s.closers - {t}, closed := true, channelClosed := true, mutex := Draining(t))
      else s
    case Drain =>
      if !s.mutex.Draining? then s
      else if s.channel == [] then s.(mutex := Free)
      else s.(channel := s.channel[1..], gone := s.gone + [s.channel[0]], frozen := s.frozen - {s.channel[0].id})
    case Thaw(k) =>
      // a holder starts executing in its worker
      if k < |s.holders| then s.(frozen := s.frozen - {s.holders[k].id}) else s
    case Finish(k) =>
      // a holder is done and its worker destroyed
      if k < |s.holders| then
        s.(holders := s.holders[..k] + s.holders[k + 1..], gone := s.gone + [s.holders[k]],
           frozen := s.frozen - {s.holders[k].id})
      else s
  }

  /** A pool just prefilled. */
  ghost predicate Initial(s: State) {
    && s.capacity > 0 && |s.channel| == s.capacity
    && (forall w :: w in s.channel ==> w == WarmWorker(w.id, s.limitMB) && w.id in s.frozen)
    && (forall i, j :: 0 <= i < j < |s.channel| ==> s.channel[i].id != s.channel[j].id)
    && s.spawned == (set w | w in s.channel)
    && !s.channelClosed && !s.closed && s.mutex.Free? && !s.panicked && s.failed == 0
    && s.received == {} && s.waiting == {} && s.closers == {} && s.nils == {} && s.holders == [] && s.gone == []
  }

  // ---------------------------------------------------------------------------
  // Counting
  // ---------------------------------------------------------------------------

  function InMutex(m: Mutex): nat {
    if m.Spawning? || m.Sending? then 1 else 0
  }

  /** Idle workers, receivers about to launch, replenishers on their way, and failed replenishes. */
  function Tally(s: State): nat {
    |s.channel| + |s.received| + |s.waiting| + InMutex(s.mutex) + s.failed
  }

  ghost predicate CountInv(s: State) {
    && s.closed == s.channelClosed && !s.panicked
    && (s.mutex.Spawning? || s.mutex.Sending? ==> !s.closed)
    && (s.mutex.Draining? ==> s.closed)
    && (!s.closed ==> Tally(s) == s.capacity)
    && (s.closed && !s.mutex.Draining? ==> s.channel == [])
    && s.received !! s.waiting
  }

  lemma ThreadMovesKeepCount(s: State, e: Event)
    requires CountInv(s) && (e.Receive? || e.Launch? || e.ReplenishLock?)
    ensures CountInv(Next(s, e))
  {
    var s' := Next(s, e);
    if e.Receive? && s'.received != s.received {
      assert |s'.received| == |s.received| + 1;
    } else if e.Launch? && s' != s {
      assert |s'.received| == |s.received| - 1 && |s'.waiting| == |s.waiting| + 1;
    } else if e.ReplenishLock? && s' != s {
      assert |s'.waiting| == |s.waiting| - 1;
    }
  }

  lemma StepKeepsCount(s: State, e: Event)
    requires CountInv(s)
    ensures CountInv(Next(s, e))
  {
    if e.Receive? || e.Launch? || e.ReplenishLock? {
      ThreadMovesKeepCount(s, e);
    }
  }

  // ---------------------------------------------------------------------------
  // Ownership
  // ---------------------------------------------------------------------------

  function BeingSent(m: Mutex): seq<Worker> {
    if m.Sending? then [m.w] else []
  }

  /** Every worker ever built is idle, being sent, held by one acquirer or gone, exactly once. */
  ghost predicate Conserved(s: State) {
    multiset(s.channel) + multiset(BeingSent(s.mutex)) + multiset(s.holders) + multiset(s.gone) == multiset(s.spawned)
  }

  ghost predicate UniqueIds(s: State) {
    forall v, w :: v in s.spawned && w in s.spawned && v.id == w.id ==> v == w
  }

  /** What every idle worker is: the standard batch worker of the pool's storage size, frozen. */
  ghost predicate Standard(s: State, w: Worker) {
    w == WarmWorker(w.id, s.limitMB) && w.id in s.frozen
  }

  ghost predicate OwnershipInv(s: State) {
    && Conserved(s) && UniqueIds(s)
    && (forall w :: w in s.channel ==> Standard(s, w))
    && (forall w :: w in BeingSent(s.mutex) ==> Standard(s, w))
  }

  /** A worker at one place is at no other. */
  lemma OnePlace(s: State, w: Worker)
    requires Conserved(s)
    ensures multiset(s.channel)[w] + multiset(BeingSent(s.mutex))[w] + multiset(s.holders)[w] + multiset(s.gone)[w] <= 1
    ensures w in s.spawned <==> w in s.channel || w in BeingSent(s.mutex) || w in s.holders || w in s.gone
  {
    var all := multiset(s.channel) + multiset(BeingSent(s.mutex)) + multiset(s.holders) + multiset(s.gone);
    assert all[w] == multiset(s.spawned)[w] <= 1;
  }

  lemma TakeOut(ws: seq<Worker>, k: nat)
    requires k < |ws|
    ensures multiset(ws[..k] + ws[k + 1..]) + multiset{ws[k]} == multiset(ws)
  {
    assert ws == ws[..k] + [ws[k]] + ws[k + 1..];
  }

  /** A worker that is not idle shares its id with no idle worker. */
  lemma NotIdle(s: State, v: Worker)
    requires OwnershipInv(s) && (v in s.holders || v in s.gone)
    ensures forall w :: w in s.channel || w in BeingSent(s.mutex) ==> w.id != v.id
  {
    forall w | w in s.channel || w in BeingSent(s.mutex) ensures w.id != v.id {
      OnePlace(s, v);
      OnePlace(s, w);
      assert multiset(s.channel)[w] >= 1 || multiset(BeingSent(s.mutex))[w] >= 1;
      assert multiset(s.holders)[v] >= 1 || multiset(s.gone)[v] >= 1;
    }
  }

  lemma HeadMoves(from: seq<Worker>, to: seq<Worker>)
    requires from != []
    ensures multiset(from[1..]) + multiset(to + [from[0]]) == multiset(from) + multiset(to)
  {
    assert from == [from[0]] + from[1..];
  }

  lemma Rebalance(a: multiset<Worker>, b: multiset<Worker>, c: multiset<Worker>, d: multiset<Worker>,
                  a': multiset<Worker>, c': multiset<Worker>)
    requires a' + c' == a + c
    ensures a' + b + c' + d == a + b + c + d
  {
    assert a' + b + c' + d == (a' + c') + b + d;
  }

  lemma ReceiveKeepsOwnership(s: State, t: Tid)
    requires OwnershipInv(s)
    ensures OwnershipInv(Next(s, Receive(t)))
  {
    if s.channel != [] {
      var s' := Next(s, Receive(t));
      if s' != s {
        HeadMoves(s.channel, s.holders);
        Rebalance(multiset(s.channel), multiset(BeingSent(s.mutex)), multiset(s.holders), multiset(s.gone),
                  multiset(s'.channel), multiset(s'.holders));
        assert forall w :: w in s'.channel ==> w in s.channel;
      }
    }
  }

  lemma OneMore(s: set<Worker>, w: Worker)
    requires w !in s
    ensures multiset(s + {w}) == multiset(s) + multiset{w}
  {
  }

  lemma FallbackKeepsOwnership(s: State, t: Tid, w: Worker)
    requires OwnershipInv(s)
    ensures OwnershipInv(Next(s, Fallback(t, w)))
  {
    var s' := Next(s, Fallback(t, w));
    if s'.spawned != s.spawned {
      OneMore(s.spawned, w);
      assert Conserved(s');
    }
  }

  lemma SpawnKeepsOwnership(s: State, id: string, ok: bool)
    requires OwnershipInv(s)
    ensures OwnershipInv(Next(s, ReplenishSpawn(id, ok)))
  {
    var s' := Next(s, ReplenishSpawn(id, ok));
    if s'.spawned != s.spawned {
      OneMore(s.spawned, WarmWorker(id, s.limitMB));
      assert Conserved(s');
    }
  }

  lemma SendKeepsOwnership(s: State)
    requires OwnershipInv(s)
    ensures OwnershipInv(Next(s, ReplenishSend))
  {
  }

  lemma DrainKeepsOwnership(s: State)
    requires OwnershipInv(s)
    ensures OwnershipInv(Next(s, Drain))
  {
    if s.mutex.Draining? && s.channel != [] {
      var s' := Next(s, Drain);
      assert s.channel == [s.channel[0]] + s.channel[1..];
      assert Conserved(s');
      forall w | w in s'.channel ensures Standard(s', w) {
        assert w in s.channel;
        OnePlace(s', s.channel[0]);
        OnePlace(s', w);
        assert multiset(s'.gone)[s.channel[0]] >= 1 && multiset(s'.channel)[w] >= 1;
        assert w != s.channel[0];
        assert w in s.spawned && s.channel[0] in s.spawned;
      }
    }
  }

  /** Thawing an id that no idle worker carries keeps the idle ones frozen. */
  lemma ThawSpares(s: State, v: Worker)
    requires OwnershipInv(s) && (v in s.holders || v in s.gone)
    ensures OwnershipInv(s.(frozen := s.frozen - {v.id}))
  {
    NotIdle(s, v);
    assert Conserved(s.(frozen := s.frozen - {v.id}));
  }

  lemma HolderLeaves(holders: seq<Worker>, k: nat, gone: seq<Worker>)
    requires k < |holders|
    ensures multiset(holders[..k] + holders[k + 1..]) + multiset(gone + [holders[k]]) == multiset(holders) + multiset(gone)
  {
    TakeOut(holders, k);
    assert multiset(gone + [holders[k]]) == multiset(gone) + multiset{holders[k]};
  }

  lemma FinishKeepsOwnership(s: State, k: nat)
    requires OwnershipInv(s) && k < |s.holders|
    ensures OwnershipInv(Next(s, Finish(k)))
  {
    var v := s.holders[k];
    ThawSpares(s, v);
    HolderLeaves(s.holders, k, s.gone);
    var s' := Next(s, Finish(k));
    Regroup(multiset(s.channel) + multiset(BeingSent(s.mutex)), multiset(s.holders), multiset(s.gone),
            multiset(s'.holders), multiset(s'.gone));
    assert Conserved(s');
  }

  lemma Regroup(a: multiset<Worker>, c: multiset<Worker>, d: multiset<Worker>, c': multiset<Worker>, d': multiset<Worker>)
    requires c' + d' == c + d
    ensures a + c' + d' == a + c + d
  {
    assert a + c' + d' == a + (c' + d');
  }

  lemma SameWorkers(s: State, s': State)
    requires OwnershipInv(s) && s'.limitMB == s.limitMB && s'.frozen == s.frozen && s'.spawned == s.spawned
    requires s'.channel == s.channel && s'.holders == s.holders && s'.gone == s.gone
    requires BeingSent(s'.mutex) == BeingSent(s.mutex)
    ensures OwnershipInv(s')
  {
  }

  lemma LaunchKeepsOwnership(s: State, t: Tid)
    requires OwnershipInv(s)
    ensures OwnershipInv(Next(s, Launch(t)))
  {
    SameWorkers(s, Next(s, Launch(t)));
  }

  lemma LockKeepsOwnership(s: State, t: Tid)
    requires OwnershipInv(s)
    ensures OwnershipInv(Next(s, ReplenishLock(t)))
  {
    SameWorkers(s, Next(s, ReplenishLock(t)));
  }

  lemma CallCloseKeepsOwnership(s: State, t: Tid)
    requires OwnershipInv(s)
    ensures OwnershipInv(Next(s, CallClose(t)))
  {
    SameWorkers(s, Next(s, CallClose(t)));
  }

  lemma CloseLockKeepsOwnership(s: State, t: Tid)
    requires OwnershipInv(s)
    ensures OwnershipInv(Next(s, CloseLock(t)))
  {
    SameWorkers(s, Next(s, CloseLock(t)));
  }

  lemma StepKeepsOwnership(s: State, e: Event)
    requires OwnershipInv(s)
    ensures OwnershipInv(Next(s, e))
  {
    match e
    case Receive(t) => ReceiveKeepsOwnership(s, t);
    case Fallback(t, w) => FallbackKeepsOwnership(s, t, w);
    case ReplenishSpawn(id, ok) => SpawnKeepsOwnership(s, id, ok);
    case ReplenishSend => SendKeepsOwnership(s);
    case Drain => DrainKeepsOwnership(s);
    case Thaw(k) =>
      if k < |s.holders| {
        ThawSpares(s, s.holders[k]);
      }
    case Finish(k) =>
      if k < |s.holders| {
        FinishKeepsOwnership(s, k);
      }
    case Launch(t) => LaunchKeepsOwnership(s, t);
    case ReplenishLock(t) => LockKeepsOwnership(s, t);
    case CallClose(t) => CallCloseKeepsOwnership(s, t);
    case CloseLock(t) => CloseLockKeepsOwnership(s, t);
  }

  // ---------------------------------------------------------------------------
  // Every run
  // ---------------------------------------------------------------------------

  ghost predicate Inv(s: State) { CountInv(s) && OwnershipInv(s) }

  lemma InitialInv(s: State)
    requires Initial(s)
    ensures Inv(s)
  {
    assert Tally(s) == s.capacity;
    NoRepeats(s.channel);
  }

  lemma {:induction false} NoRepeats(ws: seq<Worker>)
    requires forall i, j :: 0 <= i < j < |ws| ==> ws[i].id != ws[j].id
    ensures multiset(ws) == multiset(set w | w in ws)
  {
    if ws != [] {
      NoRepeats(ws[1..]);
      assert ws == [ws[0]] + ws[1..];
      assert (set w | w in ws) == {ws[0]} + set w | w in ws[1..];
    }
  }

  /** The state right after a successful prefill of a pool is initial. */
  lemma PrefilledIsInitial(ids: seq<string>, limitMB: int, workers: seq<Worker>, h: Host)
    requires 0 < |ids| && FreshIds(h, ids) && Warm(workers, ids, limitMB)
    ensures Initial(State(|ids|, limitMB, workers, false, false, Free, {}, {}, {}, {}, 0, [], [],
                          (set w | w in workers), BuiltAll(h, ids).frozen, false))
  {
    BuiltSets(h, ids);
    forall w | w in workers ensures w == WarmWorker(w.id, limitMB) && w.id in BuiltAll(h, ids).frozen {
      var i :| 0 <= i < |workers| && workers[i] == w;
      assert ids[i] in ids;
    }
  }

  lemma InvAlways(s: State, events: seq<Event>)
    requires Inv(s)
    ensures Inv(Runs.Exec(Next, s, events))
  {
    var inv := s => Inv(s);
    forall s, e | inv(s) ensures inv(Next(s, e)) {
      StepKeepsCount(s, e);
      StepKeepsOwnership(s, e);
    }
    Runs.InvariantHolds(Next, inv, s, events);
  }

  /** Before Close, idle workers, receivers about to launch, replenishers on their way and failed replenishes
      always add up to the capacity; so the send made under the mutex finds room. No run panics. */
  lemma PoolConservation(init: State, events: seq<Event>)
    requires Initial(init)
    ensures var s := Runs.Exec(Next, init, events);
            && (!s.closed ==>
                  |s.channel| + |s.received| + |s.waiting| + (if s.mutex.Spawning? || s.mutex.Sending? then 1 else 0) + s.failed
                  == s.capacity)
            && !s.panicked
            && (s.mutex.Sending? ==> !s.channelClosed && |s.channel| < s.capacity)
  {
    InitialInv(init);
    InvAlways(init, events);
  }

  /** Every worker ever built is at exactly one place, and every idle one is standard and frozen. */
  lemma ExclusiveOwnership(init: State, events: seq<Event>, w: Worker)
    requires Initial(init)
    ensures var s := Runs.Exec(Next, init, events);
            && (multiset(s.channel) + multiset(BeingSent(s.mutex)) + multiset(s.holders) + multiset(s.gone))[w] ==
               (if w in s.spawned then 1 else 0)
            && (w in s.channel ==>
                  w == Worker(w.id, s.limitMB, 0, false, "/bin/sh", ["-s"]) && w.id in s.frozen)
  {
    InitialInv(init);
    InvAlways(init, events);
  }

  // ---------------------------------------------------------------------------
  // The mutex is always given back
  // ---------------------------------------------------------------------------

  /** The next step of the call that holds the mutex, when its spawn fails. */
  function HolderEvent(m: Mutex): Event
    requires !m.Free?
  {
    match m
    case Spawning(_) => ReplenishSpawn("", false)
    case Sending(_, _) => ReplenishSend
    case Draining(_) => Drain
  }

  /** How many steps the holder still needs at most. */
  function Rank(s: State): nat {
    match s.mutex
    case Free => 0
    case Spawning(_) => 2
    case Sending(_, _) => 1
    case Draining(_) => 1 + |s.channel|
  }

  /** In every reachable state the holder of the mutex can step, each of its steps brings it closer to
      releasing, and no step of anyone else sets it back: neither replenish nor Close can deadlock. */
  lemma MutexIsReleased(init: State, events: seq<Event>, e: Event)
    requires Initial(init)
    ensures var s := Runs.Exec(Next, init, events);
            !s.mutex.Free? ==>
              && Rank(Next(s, HolderEvent(s.mutex))) < Rank(s)
              && Rank(Next(s, e)) <= Rank(s)
              && (e.ReplenishSpawn? && s.mutex.Spawning? && Next(s, e) != s ==> Rank(Next(s, e)) < Rank(s))
  {
    InitialInv(init);
    InvAlways(init, events);
  }

  // ---------------------------------------------------------------------------
  // After Close
  // ---------------------------------------------------------------------------

  ghost predicate Shut(s: State) {
    CountInv(s) && s.closed && !s.mutex.Draining?
  }

  /** Once Close has returned, no worker is idle, and no later step of any run makes one idle. */
  lemma NothingIdleAfterClose(init: State, before: seq<Event>, after: seq<Event>)
    requires Initial(init)
    requires var s := Runs.Exec(Next, init, before); s.closed && !s.mutex.Draining?
    ensures Runs.Exec(Next, init, before + after).channel == []
  {
    InitialInv(init);
    InvAlways(init, before);
    var shut := s => Shut(s);
    forall s, e | shut(s) ensures shut(Next(s, e)) {
      StepKeepsCount(s, e);
    }
    Runs.InvariantHolds(Next, shut, Runs.Exec(Next, init, before), after);
    Runs.ExecConcat(Next, init, before, after);
  }

  /** An acquisition that really receives gets a standard, frozen, so far idle worker; on a closed and
      drained pool it gets none. */
  lemma ReceiveGivesStandardWorker(init: State, events: seq<Event>, t: Tid)
    requires Initial(init)
    ensures var s := Runs.Exec(Next, init, events);
            var s' := Next(s, Receive(t));
            && (|s'.holders| == |s.holders| + 1 ==>
                  var w := s'.holders[|s.holders|];
                  && w == Worker(w.id, s.limitMB, 0, false, "/bin/sh", ["-s"]) && w.id in s'.frozen
                  && w !in s.holders
                  && s'.received == s.received + {t})
            && (s'.nils != s.nils ==> s.closed && s.channel == [])
  {
    InitialInv(init);
    InvAlways(init, events);
    var s := Runs.Exec(Next, init, events);
    if s.channel != [] {
      OnePlace(s, s.channel[0]);
      assert multiset(s.channel)[s.channel[0]] >= 1;
    }
  }
}
