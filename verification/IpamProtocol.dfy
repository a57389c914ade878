/** Any number of processes run allocator calls on one state file: lock, load, write the
    temporary file, rename, unlock, with failures and crashes between any two steps. */
module IpamProtocol {
  import opened Ipv4
  import opened Prelude
  import opened Ipam
  import Runs

  type Pid = nat

  /** A file is missing, cut short, or holds a complete table. */
  datatype Content = Absent | Torn | Whole(table: Table)

  datatype Op = Alloc(id: string) | Rel(id: string) | Get(id: string)

  /** `Address(None)` is exhaustion for an allocation and "not leased" for a lookup. */
  datatype Answer = Address(ip: Option<IP>) | Done | Failed

  datatype Entry = Entry(op: Op, answer: Answer)

  /** One call in progress; `began` is the length of the log when it was issued. A finished call took effect
      at place `at` of the log, or failed without effect; a refused one could not even take the lock. */
  datatype Stage =
    | Queued
    | Locked
    | Loaded
    | Writing(next: Table, answer: Answer)
    | Written(next: Table, answer: Answer)
    | Finished(answer: Answer, at: Option<nat>)
    | Refused

  datatype Call = Call(op: Op, began: nat, stage: Stage)

  /** A call that returned: its log position if it took effect, and the log lengths at issue and return. */
  datatype Response = Response(op: Op, answer: Answer, began: nat, at: Option<nat>, ended: nat)

  /** `start` is the table in the file at the beginning, and `log` lists the operations in the order in which
      they take effect from then on. */
  datatype State = State(
    cfg: Config, start: Table, file: Content, tmp: Content, lock: Option<Pid>, calls: map<Pid, Call>,
    log: seq<Entry>, responses: seq<Response>)

  datatype Event =
    | Begin(p: Pid, op: Op)
    | Acquire(p: Pid)
    | LockFails(p: Pid)
    | Load(p: Pid)
    | LoadFails(p: Pid)
    | OpenTmp(p: Pid)
    | FillTmp(p: Pid)
    | WriteFails(p: Pid)
    | Rename(p: Pid)
    | RenameFails(p: Pid)
    | Return(p: Pid)
    | Crash(p: Pid)

  /** Earlier processes may have left a state file, and a temporary file in any condition. */
  function Init(cfg: Config, file: Content, tmp: Content): State {
    State(cfg, TableOf(file), file, tmp, None, map[], [], [])
  }

  ghost predicate Usable(cfg: Config, file: Content) {
    !file.Torn? && Good(cfg, TableOf(file))
  }

  /** The operations as atomic steps on the table. */
  function Apply(cfg: Config, table: Table, op: Op): (Table, Answer) {
    match op
    case Alloc(id) => (Allocate(cfg, table, id).0, Address(Allocate(cfg, table, id).1))
    case Rel(id) => (Release(table, id), Done)
    case Get(id) => (table, Address(Lookup(table, id)))
  }

  predicate Saves(cfg: Config, table: Table, op: Op) {
    match op
    case Alloc(id) => Lookup(table, id).None? && Allocate(cfg, table, id).1.Some?
    case Rel(id) => id in table
    case Get(_) => false
  }

  function TableOf(c: Content): Table {
    if c.Whole? then c.table else map[]
  }

  function Move(s: State, p: Pid, stage: Stage): State
    requires p in s.calls
  {
    s.(calls := s.calls[p := s.calls[p].(stage := stage)])
  }

  /** What the caller of a failing operation is told: a lookup swallows its error. */
  function FailureAnswer(op: Op): Answer {
    if op.Get? then Address(None) else Failed
  }

  function Fail(s: State, p: Pid): State
    requires p in s.calls
  {
    Move(s, p, Finished(FailureAnswer(s.calls[p].op), None))
  }

  predicate At(s: State, p: Pid, stage: Stage) {
    p in s.calls && s.calls[p].stage == stage
  }

  function Next(s: State, e: Event): State {
    match e
    case Begin(p, op) =>
      if p !in s.calls then s.(calls := s.calls[p := Call(op, |s.log|, Queued)]) else s
    case Acquire(p) =>
      if At(s, p, Queued) && s.lock.None? then Move(s, p, Locked).(lock := Some(p)) else s
    case LockFails(p) =>
      if At(s, p, Queued) then Move(s, p, Refused) else s
    case Load(p) =>
      if !At(s, p, Locked) then s
      else if s.file.Torn? then Fail(s, p)
      else
        var op := s.calls[p].op;
        if Saves(s.cfg, TableOf(s.file), op) then Move(s, p, Loaded)
        else
          var answer := Apply(s.cfg, TableOf(s.file), op).1;
          Move(s, p, Finished(answer, Some(|s.log|))).(log := s.log + [Entry(op, answer)])
    case LoadFails(p) =>
      if At(s, p, Locked) then Fail(s, p) else s
    case OpenTmp(p) =>
      if At(s, p, Loaded) then
        var (next, answer) := Apply(s.cfg, TableOf(s.file), s.calls[p].op);
        Move(s, p, Writing(next, answer)).(tmp := Torn)
      else s
    case FillTmp(p) =>
      if p in s.calls && s.calls[p].stage.Writing? then
        var w := s.calls[p].stage;
        Move(s, p, Written(w.next, w.answer)).(tmp := Whole(w.next))
      else s
    case WriteFails(p) =>
      if p in s.calls && (s.calls[p].stage.Loaded? || s.calls[p].stage.Writing?) then Fail(s, p) else s
    case Rename(p) =>
      if p in s.calls && s.calls[p].stage.Written? then
        var w := s.calls[p].stage;
        Move(s, p, Finished(w.answer, Some(|s.log|)))
        .(file := s.tmp, tmp := Absent, log := s.log + [Entry(s.calls[p].op, w.answer)])
      else s
    case RenameFails(p) =>
      if p in s.calls && s.calls[p].stage.Written? then Fail(s, p).(tmp := Absent) else s
    case Return(p) =>
      if p in s.calls && s.calls[p].stage.Refused? then
        var c := s.calls[p];
        s.(calls := s.calls - {p},
           responses := s.responses + [Response(c.op, FailureAnswer(c.op), c.began, None, |s.log|)])
      else if p in s.calls && s.calls[p].stage.Finished? then
        var c := s.calls[p];
        s.(calls := s.calls - {p}, lock := None,
           responses := s.responses + [Response(c.op, c.stage.answer, c.began, c.stage.at, |s.log|)])
      else s
    case Crash(p) =>
      s.(calls := s.calls - {p}, lock := if s.lock == Some(p) then None else s.lock)
  }

  // ---------------------------------------------------------------------------
  // The atomic history
  // ---------------------------------------------------------------------------

  /** The table after the logged operations, each applied atomically to the table at the start. */
  function Replay(cfg: Config, start: Table, log: seq<Entry>): Table {
    if log == [] then start else Apply(cfg, Replay(cfg, start, log[..|log| - 1]), log[|log| - 1].op).0
  }

  /** The answer at place `k` is the one the atomic operation gives there. */
  ghost predicate AnswerFits(cfg: Config, start: Table, log: seq<Entry>, k: nat)
    requires k < |log|
  {
    log[k].answer == Apply(cfg, Replay(cfg, start, log[..k]), log[k].op).1
  }

  ghost predicate Consistent(cfg: Config, start: Table, log: seq<Entry>) {
    forall k :: 0 <= k < |log| ==> AnswerFits(cfg, start, log, k)
  }

  lemma ReplayStep(cfg: Config, start: Table, log: seq<Entry>, e: Entry)
    ensures Replay(cfg, start, log + [e]) == Apply(cfg, Replay(cfg, start, log), e.op).0
    ensures Consistent(cfg, start, log) && e.answer == Apply(cfg, Replay(cfg, start, log), e.op).1 ==>
              Consistent(cfg, start, log + [e])
  {
    var log' := log + [e];
    assert log'[..|log|] == log;
    if Consistent(cfg, start, log) && e.answer == Apply(cfg, Replay(cfg, start, log), e.op).1 {
      forall k | 0 <= k < |log'| ensures AnswerFits(cfg, start, log', k) {
        assert k < |log| ==> log'[..k] == log[..k] && AnswerFits(cfg, start, log, k);
      }
    }
  }

  lemma {:induction false} ReplayGood(cfg: Config, start: Table, log: seq<Entry>)
    requires Good(cfg, start)
    ensures Good(cfg, Replay(cfg, start, log))
  {
    if log != [] {
      var init, op := log[..|log| - 1], log[|log| - 1].op;
      ReplayGood(cfg, start, init);
      match op {
        case Alloc(id) => AllocateKeepsGood(cfg, Replay(cfg, start, init), id);
        case Rel(id) => ReleaseKeepsGood(cfg, Replay(cfg, start, init), id);
        case Get(_) =>
      }
    }
  }

  // ---------------------------------------------------------------------------
  // The invariant
  // ---------------------------------------------------------------------------

  predicate InLock(st: Stage) { !st.Queued? && !st.Refused? }

  ghost predicate CallInv(s: State, c: Call) {
    && c.began <= |s.log|
    && (c.stage.Writing? || c.stage.Written? ==>
        (c.stage.next, c.stage.answer) == Apply(s.cfg, TableOf(s.file), c.op))
    && (c.stage.Written? ==> s.tmp == Whole(c.stage.next))
    && (c.stage.Finished? ==>
        match c.stage.at
        case None => c.stage.answer == FailureAnswer(c.op)
        case Some(k) => c.began <= k < |s.log| && s.log[k] == Entry(c.op, c.stage.answer))
  }

  ghost predicate ResponseInv(s: State, r: Response) {
    && r.began <= r.ended <= |s.log|
    && match r.at
       case None => r.answer == FailureAnswer(r.op)
       case Some(k) => r.began <= k < r.ended && s.log[k] == Entry(r.op, r.answer)
  }

  ghost predicate LockInv(s: State) {
    forall p :: p in s.calls && InLock(s.calls[p].stage) ==> s.lock == Some(p)
  }

  ghost predicate Inv(s: State) {
    && !s.file.Torn? && TableOf(s.file) == Replay(s.cfg, s.start, s.log) && Consistent(s.cfg, s.start, s.log)
    && LockInv(s)
    && (forall p :: p in s.calls ==> CallInv(s, s.calls[p]))
    && (forall k :: 0 <= k < |s.responses| ==> ResponseInv(s, s.responses[k]))
  }

  /** Appending a consistent entry while holding the lock keeps what the other calls and responses know. */
  lemma Linearize(s: State, s': State, p: Pid)
    requires Inv(s) && p in s.calls && InLock(s.calls[p].stage)
    requires var c := s.calls[p];
             var (next, answer) := Apply(s.cfg, TableOf(s.file), c.op);
             && s'.calls == s.calls[p := c.(stage := Finished(answer, Some(|s.log|)))]
             && s'.log == s.log + [Entry(c.op, answer)]
             && !s'.file.Torn? && TableOf(s'.file) == next
    requires s'.cfg == s.cfg && s'.start == s.start && s'.lock == s.lock && s'.responses == s.responses
    ensures Inv(s')
  {
    var c := s.calls[p];
    ReplayStep(s.cfg, s.start, s.log, s'.log[|s.log|]);
    forall q | q in s'.calls ensures CallInv(s', s'.calls[q]) {
      if q != p {
        assert CallInv(s, s.calls[q]) && !InLock(s.calls[q].stage);
      } else {
        assert CallInv(s, c);
      }
    }
    forall k | 0 <= k < |s'.responses| ensures ResponseInv(s', s'.responses[k]) {
      assert ResponseInv(s, s.responses[k]);
    }
  }

  /** A step that changes neither the state file nor the log needs only a look at the moved call. */
  lemma QuietStep(s: State, s': State, p: Pid)
    requires Inv(s)
    requires s'.cfg == s.cfg && s'.start == s.start && s'.file == s.file && s'.log == s.log && s'.responses == s.responses
    requires s'.calls - {p} == s.calls - {p} && LockInv(s')
    requires s'.tmp == s.tmp || (p in s.calls && InLock(s.calls[p].stage))
    requires p in s'.calls ==> CallInv(s', s'.calls[p])
    ensures Inv(s')
  {
    forall q | q in s'.calls ensures CallInv(s', s'.calls[q]) {
      if q != p {
        assert q in s'.calls - {p} && s'.calls[q] == (s'.calls - {p})[q] == (s.calls - {p})[q] == s.calls[q];
        assert CallInv(s, s.calls[q]);
      }
    }
    forall k | 0 <= k < |s'.responses| ensures ResponseInv(s', s'.responses[k]) {
      assert ResponseInv(s, s.responses[k]);
    }
  }

  lemma ReturnKeepsInv(s: State, p: Pid)
    requires Inv(s)
    ensures Inv(Next(s, Return(p)))
  {
    var s' := Next(s, Return(p));
    if s' != s {
      assert CallInv(s, s.calls[p]);
      forall q | q in s'.calls ensures CallInv(s', s'.calls[q]) {
        assert CallInv(s, s.calls[q]);
      }
      forall k | 0 <= k < |s'.responses| ensures ResponseInv(s', s'.responses[k]) {
        assert k < |s.responses| ==> ResponseInv(s, s.responses[k]);
      }
    }
  }

  lemma LockKept(s: State, e: Event)
    requires LockInv(s)
    ensures LockInv(Next(s, e))
  {
  }

  predicate Quiet(s: State, e: Event) {
    && !e.Return?
    && Next(s, e).log == s.log && Next(s, e).file == s.file
  }

  /** The call moved by a quiet step still satisfies its invariant. */
  lemma QuietCall(s: State, e: Event)
    requires Inv(s) && Quiet(s, e) && e.p in Next(s, e).calls
    ensures CallInv(Next(s, e), Next(s, e).calls[e.p])
  {
    if e.p in s.calls {
      assert CallInv(s, s.calls[e.p]);
    }
  }

  lemma QuietFrame(s: State, e: Event)
    requires Quiet(s, e)
    ensures var s' := Next(s, e);
            && s'.cfg == s.cfg && s'.start == s.start && s'.responses == s.responses && s'.calls - {e.p} == s.calls - {e.p}
            && (s'.tmp == s.tmp || (e.p in s.calls && InLock(s.calls[e.p].stage)))
  {
    var s' := Next(s, e);
    assert s'.calls - {e.p} == s.calls - {e.p};
  }

  lemma LoudStep(s: State, e: Event)
    requires Inv(s) && !Quiet(s, e) && !e.Return?
    ensures Inv(Next(s, e))
  {
    assert CallInv(s, s.calls[e.p]);
    Linearize(s, Next(s, e), e.p);
  }

  lemma StepKeepsInv(s: State, e: Event)
    requires Inv(s)
    ensures Inv(Next(s, e))
  {
    if e.Return? {
      ReturnKeepsInv(s, e.p);
    } else if Quiet(s, e) {
      LockKept(s, e);
      QuietFrame(s, e);
      if e.p in Next(s, e).calls {
        QuietCall(s, e);
      }
      QuietStep(s, Next(s, e), e.p);
    } else {
      LoudStep(s, e);
    }
  }

  ghost predicate InvFor(cfg: Config, start: Table, s: State) {
    s.cfg == cfg && s.start == start && Inv(s)
  }

  lemma StepKeepsInvFor(cfg: Config, start: Table, s: State, e: Event)
    requires InvFor(cfg, start, s)
    ensures InvFor(cfg, start, Next(s, e))
  {
    StepKeepsInv(s, e);
  }

  lemma InvAlways(cfg: Config, file: Content, tmp: Content, events: seq<Event>)
    requires Usable(cfg, file)
    ensures InvFor(cfg, TableOf(file), Runs.Exec(Next, Init(cfg, file, tmp), events))
  {
    var inv := s => InvFor(cfg, TableOf(file), s);
    forall s, e | inv(s) ensures inv(Next(s, e)) {
      StepKeepsInvFor(cfg, TableOf(file), s, e);
    }
    assert inv(Init(cfg, file, tmp));
    Runs.InvariantHolds(Next, inv, Init(cfg, file, tmp), events);
  }

  // ---------------------------------------------------------------------------
  // Main results
  // ---------------------------------------------------------------------------

  /** Whatever the interleaving and the crashes: the state file is never torn, it holds the table that the
      logged atomic operations produce, and that table is injective with every lease a usable host. */
  lemma StateFileIsAtomicHistory(cfg: Config, file: Content, tmp: Content, events: seq<Event>)
    requires Usable(cfg, file)
    ensures var s := Runs.Exec(Next, Init(cfg, file, tmp), events);
            !s.file.Torn? && TableOf(s.file) == Replay(cfg, TableOf(file), s.log) && Good(cfg, TableOf(s.file))
  {
    InvAlways(cfg, file, tmp, events);
    ReplayGood(cfg, TableOf(file), Runs.Exec(Next, Init(cfg, file, tmp), events).log);
  }

  /** Every call that took effect did so at one place of the log, between its issue and its return, and its
      answer is what the atomic operation gives there; every other call returned its failure answer. */
  lemma Linearizable(cfg: Config, file: Content, tmp: Content, events: seq<Event>, k: nat)
    requires Usable(cfg, file) && k < |Runs.Exec(Next, Init(cfg, file, tmp), events).responses|
    ensures var s := Runs.Exec(Next, Init(cfg, file, tmp), events);
            var r := s.responses[k];
            && r.began <= r.ended <= |s.log|
            && match r.at
               case None => r.answer == if r.op.Get? then Address(None) else Failed
               case Some(at) =>
                 && r.began <= at < r.ended
                 && s.log[at].op == r.op
                 && r.answer == Apply(cfg, Replay(cfg, TableOf(file), s.log[..at]), r.op).1
  {
    InvAlways(cfg, file, tmp, events);
    var s := Runs.Exec(Next, Init(cfg, file, tmp), events);
    var r := s.responses[k];
    assert ResponseInv(s, r);
    if r.at.Some? {
      assert AnswerFits(cfg, s.start, s.log, r.at.value);
    }
  }

  /** The response's answer is the atomic one at some moment between issue and return. */
  ghost predicate Explained(s: State, r: Response)
    requires r.ended <= |s.log|
  {
    exists j :: r.began <= j <= r.ended && r.answer == AtomicAnswer(s, r.op, j)
  }

  function AtomicAnswer(s: State, op: Op, j: nat): Answer
    requires j <= |s.log|
  {
    Apply(s.cfg, Replay(s.cfg, s.start, s.log[..j]), op).1
  }

  /** The container has no lease in the table after `j` operations. */
  predicate Unleased(s: State, id: string, j: nat)
    requires j <= |s.log|
  {
    id !in Replay(s.cfg, s.start, s.log[..j])
  }

  /** A lookup that returned is linearizable if and only if its lock and load succeeded, or the container
      had no lease at some moment of the call anyway. */
  lemma LookupLinearizableIff(cfg: Config, file: Content, tmp: Content, events: seq<Event>, k: nat)
    requires Usable(cfg, file)
    requires var s := Runs.Exec(Next, Init(cfg, file, tmp), events); k < |s.responses| && s.responses[k].op.Get?
    ensures var s := Runs.Exec(Next, Init(cfg, file, tmp), events);
            var r := s.responses[k];
            && r.ended <= |s.log|
            && (Explained(s, r) <==> r.at.Some? || exists j :: r.began <= j <= r.ended && Unleased(s, r.op.id, j))
  {
    Linearizable(cfg, file, tmp, events, k);
    InvAlways(cfg, file, tmp, events);
    var s := Runs.Exec(Next, Init(cfg, file, tmp), events);
    var r := s.responses[k];
    if r.at.Some? {
      assert r.answer == AtomicAnswer(s, r.op, r.at.value);
    } else {
      forall j | r.began <= j <= r.ended ensures Unleased(s, r.op.id, j) <==> r.answer == AtomicAnswer(s, r.op, j) {
        ReplayGood(cfg, s.start, s.log[..j]);
        GoodLookup(cfg, Replay(cfg, s.start, s.log[..j]), r.op.id);
      }
    }
  }

  lemma FailedLookupSteps(s: State, p: Pid, id: string)
    requires p !in s.calls && s.lock.None?
    ensures Next(Next(Next(Next(s, Begin(p, Get(id))), Acquire(p)), LoadFails(p)), Return(p))
            == s.(responses := s.responses + [Response(Get(id), Address(None), |s.log|, None, |s.log|)])
  {
    var s1 := Next(s, Begin(p, Get(id)));
    var s2 := Next(s1, Acquire(p));
    var s3 := Next(s2, LoadFails(p));
    assert s3 == s.(calls := s3.calls, lock := Some(p));
    assert s3.calls - {p} == s.calls;
  }

  /** "Not leased" is no atomic answer while the container holds a lease. */
  lemma NotLeasedIsWrong(s: State, r: Response)
    requires Inv(s) && Good(s.cfg, TableOf(s.file)) && r.op.Get? && r.op.id in TableOf(s.file)
    requires r.answer == Address(None) && r.began == r.ended == |s.log|
    ensures !Explained(s, r)
  {
    assert s.log[..|s.log|] == s.log;
    GoodLookup(s.cfg, TableOf(s.file), r.op.id);
    assert AtomicAnswer(s, r.op, |s.log|) != r.answer;
  }

  /** From every reachable state in which a container holds a lease, a lookup whose load fails answers
      "not leased", although the lease stays in the table throughout. */
  lemma FailedLookupHidesLease(cfg: Config, file: Content, tmp: Content, events: seq<Event>, p: Pid, id: string)
    requires Usable(cfg, file)
    requires var s := Runs.Exec(Next, Init(cfg, file, tmp), events);
             p !in s.calls && s.lock.None? && id in TableOf(s.file)
    ensures var s := Runs.Exec(Next, Init(cfg, file, tmp), events);
            var s' := Runs.Exec(Next, Init(cfg, file, tmp), events + [Begin(p, Get(id)), Acquire(p), LoadFails(p), Return(p)]);
            && |s'.responses| == |s.responses| + 1
            && s'.file == s.file
            && s'.responses[|s.responses|].answer == Address(None)
            && s'.responses[|s.responses|].ended <= |s'.log|
            && !Explained(s', s'.responses[|s.responses|])
  {
    var s := Runs.Exec(Next, Init(cfg, file, tmp), events);
    var a, b, c, d := Begin(p, Get(id)), Acquire(p), LoadFails(p), Return(p);
    Runs.ExecFour(Next, s, a, b, c, d);
    Runs.ExecConcat(Next, Init(cfg, file, tmp), events, [a, b, c, d]);
    FailedLookupSteps(s, p, id);
    InvAlways(cfg, file, tmp, events + [a, b, c, d]);
    StateFileIsAtomicHistory(cfg, file, tmp, events);
    NotLeasedIsWrong(Runs.Exec(Next, Init(cfg, file, tmp), events + [a, b, c, d]),
                     Response(Get(id), Address(None), |s.log|, None, |s.log|));
  }

  /** A call fails only when one of its own system calls does. */
  lemma FailureNeedsFault(s: State, e: Event, p: Pid)
    requires Inv(s) && p in s.calls && p in Next(s, e).calls
    requires !HasFailed(s.calls[p].stage) && HasFailed(Next(s, e).calls[p].stage)
    ensures e.p == p && (e.LockFails? || e.LoadFails? || e.WriteFails? || e.RenameFails?)
  {
  }

  predicate HasFailed(st: Stage) { st.Refused? || (st.Finished? && st.at.None?) }

  // ---------------------------------------------------------------------------
  // Real time
  // ---------------------------------------------------------------------------

  /** What a call keeps from its issue on, and what the histories do: they only grow. */
  predicate Later(s: State, s': State, q: Pid) {
    && s.log <= s'.log && s.responses <= s'.responses
    && (q in s.calls ==> q in s'.calls && s'.calls[q].op == s.calls[q].op && s'.calls[q].began == s.calls[q].began)
  }

  predicate Leaves(e: Event, q: Pid) { (e.Return? || e.Crash?) && e.p == q }

  lemma StepIsLater(s: State, e: Event, q: Pid)
    requires !Leaves(e, q)
    ensures Later(s, Next(s, e), q)
  {
  }

  lemma {:induction false} RunIsLater(s: State, events: seq<Event>, q: Pid)
    requires forall e :: e in events ==> !Leaves(e, q)
    ensures Later(s, Runs.Exec(Next, s, events), q)
    decreases |events|
  {
    if events != [] {
      StepIsLater(s, events[0], q);
      RunIsLater(Next(s, events[0]), events[1..], q);
    }
  }

  /** What returning adds to the responses. */
  lemma ReturnAppends(s: State, q: Pid)
    requires Inv(s) && q in s.calls
    ensures var rs := Next(s, Return(q)).responses;
            s.responses <= rs
            && (|rs| > |s.responses| ==>
                  var r := rs[|s.responses|];
                  r.op == s.calls[q].op && (r.at.Some? ==> r.at.value >= s.calls[q].began))
  {
    assert CallInv(s, s.calls[q]);
  }

  /** The log respects real time: whatever had returned when a call was issued took effect before it. `before` is
      the run up to the issue, `during` the run from then to the return. */
  lemma RealTimeOrder(cfg: Config, file: Content, tmp: Content, before: seq<Event>, q: Pid, op: Op,
                      during: seq<Event>, k: nat)
    requires Usable(cfg, file)
    requires var s := Runs.Exec(Next, Init(cfg, file, tmp), before); q !in s.calls && k < |s.responses|
    requires forall e :: e in during ==> !Leaves(e, q)
    ensures var s := Runs.Exec(Next, Init(cfg, file, tmp), before);
            var s' := Runs.Exec(Next, Init(cfg, file, tmp), before + [Begin(q, op)] + during);
            var rs := Next(s', Return(q)).responses;
            && |s.responses| <= |s'.responses| && s'.responses <= rs && rs[k] == s.responses[k]
            && (|rs| > |s'.responses| ==>
                  var r := rs[|s'.responses|];
                  r.op == op && (rs[k].at.Some? && r.at.Some? ==> rs[k].at.value < r.at.value))
  {
    var init := Init(cfg, file, tmp);
    var s := Runs.Exec(Next, init, before);
    var s' := Runs.Exec(Next, init, before + [Begin(q, op)] + during);
    InvAlways(cfg, file, tmp, before);
    assert ResponseInv(s, s.responses[k]);
    Runs.ExecOneMore(Next, init, before, Begin(q, op));
    Runs.ExecConcat(Next, init, before + [Begin(q, op)], during);
    RunIsLater(Next(s, Begin(q, op)), during, q);
    InvAlways(cfg, file, tmp, before + [Begin(q, op)] + during);
    ReturnAppends(s', q);
  }

  /** A call that is inside the lock is the only one, so the temporary file has one writer. */
  lemma MutualExclusion(cfg: Config, file: Content, tmp: Content, events: seq<Event>, p: Pid, q: Pid)
    requires Usable(cfg, file)
    ensures var s := Runs.Exec(Next, Init(cfg, file, tmp), events);
            p in s.calls && q in s.calls && InLock(s.calls[p].stage) && InLock(s.calls[q].stage) ==> p == q
  {
    InvAlways(cfg, file, tmp, events);
  }

  /** One operation on another container, or a repeated request, leaves a lease where it is. */
  lemma OpKeepsLease(cfg: Config, table: Table, op: Op, id: string)
    requires Lookup(table, id).Some? && op != Rel(id)
    ensures Lookup(Apply(cfg, table, op).0, id) == Lookup(table, id)
  {
  }

  lemma GrantLeases(cfg: Config, table: Table, id: string)
    requires Allocate(cfg, table, id).1.Some?
    ensures Lookup(Allocate(cfg, table, id).0, id) == Allocate(cfg, table, id).1
  {
    var i := FirstFree(cfg, table, FIRST_HOST);
    if i < HOST_LIMIT {
      DottedIff(CandidateText(cfg, i), Candidate(cfg, i));
    }
  }

  /** The lease survives the entry before `j`, or is granted by it. */
  lemma LeaseAfter(cfg: Config, start: Table, log: seq<Entry>, j: nat, id: string, ip: IP)
    requires 0 < j <= |log| && AnswerFits(cfg, start, log, j - 1)
    requires || log[j - 1] == Entry(Alloc(id), Address(Some(ip)))
             || (Lookup(Replay(cfg, start, log[..j - 1]), id) == Some(ip) && log[j - 1].op != Rel(id))
    ensures Lookup(Replay(cfg, start, log[..j]), id) == Some(ip)
  {
    var before, e := log[..j - 1], log[j - 1];
    assert log[..j] == before + [e];
    ReplayStep(cfg, start, before, e);
    if e == Entry(Alloc(id), Address(Some(ip))) {
      GrantLeases(cfg, Replay(cfg, start, before), id);
    } else {
      OpKeepsLease(cfg, Replay(cfg, start, before), e.op, id);
    }
  }

  /** From the grant at `i` on, and until a release, the table after `j` entries holds the same lease. */
  lemma {:induction false} LeaseHeld(cfg: Config, start: Table, log: seq<Entry>, i: nat, j: nat, id: string, ip: IP)
    requires Consistent(cfg, start, log) && i < j <= |log|
    requires log[i] == Entry(Alloc(id), Address(Some(ip)))
    requires forall k :: i < k < j ==> log[k].op != Rel(id)
    ensures Lookup(Replay(cfg, start, log[..j]), id) == Some(ip)
  {
    if i + 1 < j {
      LeaseHeld(cfg, start, log, i, j - 1, id, ip);
    }
    assert AnswerFits(cfg, start, log, j - 1);
    LeaseAfter(cfg, start, log, j, id, ip);
  }

  lemma OpKeepsUnleased(cfg: Config, table: Table, op: Op, id: string)
    requires id !in table && op != Alloc(id)
    ensures id !in Apply(cfg, table, op).0
  {
  }

  /** A release frees the container until its next allocation. */
  lemma {:induction false} ReleasedStaysFree(cfg: Config, start: Table, log: seq<Entry>, i: nat, j: nat, id: string)
    requires i < j <= |log| && log[i].op == Rel(id)
    requires forall k :: i < k < j ==> log[k].op != Alloc(id)
    ensures id !in Replay(cfg, start, log[..j])
  {
    assert log[..j][..j - 1] == log[..j - 1];
    if i + 1 < j {
      ReleasedStaysFree(cfg, start, log, i, j - 1, id);
      OpKeepsUnleased(cfg, Replay(cfg, start, log[..j - 1]), log[j - 1].op, id);
    }
  }

  /** After a release and before the next allocation of the container, a lookup of it finds nothing, and the
      state file has no entry for it. */
  lemma ReleaseFrees(cfg: Config, file: Content, tmp: Content, events: seq<Event>, i: nat, id: string)
    requires Usable(cfg, file)
    requires var s := Runs.Exec(Next, Init(cfg, file, tmp), events);
             i < |s.log| && s.log[i].op == Rel(id) && forall k :: i < k < |s.log| ==> s.log[k].op != Alloc(id)
    ensures var s := Runs.Exec(Next, Init(cfg, file, tmp), events);
            && id !in TableOf(s.file)
            && forall k :: i < k < |s.log| && s.log[k].op == Get(id) ==> s.log[k].answer == Address(None)
  {
    InvAlways(cfg, file, tmp, events);
    var s := Runs.Exec(Next, Init(cfg, file, tmp), events);
    ReleasedStaysFree(cfg, s.start, s.log, i, |s.log|, id);
    assert s.log[..|s.log|] == s.log;
    forall k | i < k < |s.log| && s.log[k].op == Get(id) ensures s.log[k].answer == Address(None) {
      ReleasedStaysFree(cfg, s.start, s.log, i, k, id);
      assert AnswerFits(cfg, s.start, s.log, k);
    }
  }

  /** Lease stability: once a call has granted an address, every later allocation or lookup of the same
      container that returns before the next release of it answers with that address if and only if it took
      effect, that is, unless one of its own system calls failed. */
  lemma LeaseStable(cfg: Config, file: Content, tmp: Content, events: seq<Event>, i: nat, k: nat, id: string, ip: IP)
    requires Usable(cfg, file)
    requires var s := Runs.Exec(Next, Init(cfg, file, tmp), events);
             && k < |s.responses| && i < s.responses[k].began <= s.responses[k].ended <= |s.log|
             && s.log[i] == Entry(Alloc(id), Address(Some(ip)))
             && (forall m :: i < m < s.responses[k].ended ==> s.log[m].op != Rel(id))
             && (s.responses[k].op == Alloc(id) || s.responses[k].op == Get(id))
    ensures var r := Runs.Exec(Next, Init(cfg, file, tmp), events).responses[k];
            r.answer == Address(Some(ip)) <==> r.at.Some?
  {
    Linearizable(cfg, file, tmp, events, k);
    InvAlways(cfg, file, tmp, events);
    var s := Runs.Exec(Next, Init(cfg, file, tmp), events);
    var r := s.responses[k];
    if r.at.Some? {
      LeaseHeld(cfg, s.start, s.log, i, r.at.value, id, ip);
    }
  }
}
