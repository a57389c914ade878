/** Containers of one host come and go concurrently: lease, add rules one command at a time, delete
    them one at a time, release. Every command succeeds. */
module NatProtocol {
  import opened Prelude
  import opened Ipam
  import opened Nat
  import Runs

  /** Rules `lo..hi` of the container's list are in the table. */
  datatype Job = Job(ms: seq<PortMapping>, lo: nat, hi: nat, cleaning: bool)

  datatype State = State(cfg: Config, leases: Table, jobs: map<string, Job>, rules: seq<Rule>)

  datatype Event =
    | Lease(id: string, ms: seq<PortMapping>)
    | AddRule(id: string)
    | StartCleanup(id: string)
    | DeleteRule(id: string)
    | ReleaseLease(id: string)
    | OtherLease(id: string)
    | OtherRelease(id: string)

  /** The whole rule list of a container with address text `ip`. */
  function ListOf(ip: string, j: Job): seq<Rule> { RulesFor(ip, j.ms) }

  predicate Active(s: State, id: string) { id in s.jobs && id in s.leases }

  function Full(s: State, id: string): seq<Rule>
    requires Active(s, id)
  {
    ListOf(s.leases[id], s.jobs[id])
  }

  function Next(s: State, e: Event): State {
    match e
    case Lease(id, ms) =>
      if id !in s.jobs && (forall m :: m in ms ==> Supported(m)) && Allocate(s.cfg, s.leases, id).1.Some? then
        s.(leases := Allocate(s.cfg, s.leases, id).0, jobs := s.jobs[id := Job(ms, 0, 0, false)])
      else s
    case AddRule(id) =>
      if Active(s, id) && !s.jobs[id].cleaning && s.jobs[id].hi < |Full(s, id)| then
        s.(rules := s.rules + [Full(s, id)[s.jobs[id].hi]],
           jobs := s.jobs[id := s.jobs[id].(hi := s.jobs[id].hi + 1)])
      else s
    case StartCleanup(id) =>
      if Active(s, id) && s.jobs[id].hi == |Full(s, id)| then
        s.(jobs := s.jobs[id := s.jobs[id].(cleaning := true)])
      else s
    case DeleteRule(id) =>
      if Active(s, id) && s.jobs[id].cleaning && s.jobs[id].lo < |Full(s, id)| then
        s.(rules := Delete(s.rules, Full(s, id)[s.jobs[id].lo]),
           jobs := s.jobs[id := s.jobs[id].(lo := s.jobs[id].lo + 1)])
      else s
    case ReleaseLease(id) =>
      if Active(s, id) && s.jobs[id].cleaning && s.jobs[id].lo == |Full(s, id)| then
        s.(leases := Release(s.leases, id), jobs := s.jobs - {id})
      else s
    case OtherLease(id) =>
      if id !in s.jobs then s.(leases := Allocate(s.cfg, s.leases, id).0) else s
    case OtherRelease(id) =>
      if id !in s.jobs then s.(leases := Release(s.leases, id)) else s
  }

  /** `ip` is the text of an address the allocator may grant. */
  ghost predicate Grantable(cfg: Config, ip: string) {
    exists i :: FIRST_HOST <= i < HOST_LIMIT && ip == CandidateText(cfg, i)
  }

  /** The container's rules in the table are the announced slice of its list, in order. */
  ghost predicate JobInv(s: State, id: string)
    requires Active(s, id)
  {
    var j := s.jobs[id];
    && j.lo <= j.hi <= |Full(s, id)|
    && (if j.cleaning then j.hi == |Full(s, id)| else j.lo == 0)
    && Owned(s.rules, s.leases[id]) == Full(s, id)[j.lo..j.hi]
  }

  /** No container holds the address. */
  ghost predicate Unheld(s: State, ip: string) {
    forall id :: id in s.jobs && id in s.leases ==> s.leases[id] != ip
  }

  /** A grantable address that nobody holds has no rules; the host's own addresses have the host's. */
  ghost predicate AddressInv(cfg: Config, host: seq<Rule>, s: State, ip: string) {
    && (Grantable(cfg, ip) && Unheld(s, ip) ==> Owned(s.rules, ip) == [])
    && (!Grantable(cfg, ip) ==> Owned(s.rules, ip) == Owned(host, ip))
  }

  /** `host` is the nat table before the first container. */
  ghost predicate Inv(cfg: Config, host: seq<Rule>, s: State) {
    && s.cfg == cfg && Good(cfg, s.leases) && s.jobs.Keys <= s.leases.Keys
    && (forall id :: id in s.jobs ==> JobInv(s, id))
    && (forall ip :: AddressInv(cfg, host, s, ip))
  }

  /** A job's invariant depends on its own lease, list and rules only. */
  lemma JobInvFrame(s: State, s': State, id: string)
    requires Active(s, id) && Active(s', id) && JobInv(s, id)
    requires s'.jobs[id] == s.jobs[id] && s'.leases[id] == s.leases[id]
    requires Owned(s'.rules, s.leases[id]) == Owned(s.rules, s.leases[id])
    ensures JobInv(s', id)
  {
  }

  lemma LeaseIsGrantable(cfg: Config, table: Table, id: string)
    requires Good(cfg, table) && id in table
    ensures Grantable(cfg, table[id])
  {
    var i :| Leases(cfg, table, id, i) && Candidate(cfg, i) != cfg.gateway;
  }

  /** A change of the lease table that spares the active containers keeps the invariant. */
  lemma LeasesChange(cfg: Config, host: seq<Rule>, s: State, leases: Table)
    requires Inv(cfg, host, s) && Good(cfg, leases)
    requires forall id :: id in s.jobs ==> id in leases && leases[id] == s.leases[id]
    ensures Inv(cfg, host, s.(leases := leases))
  {
    var s' := s.(leases := leases);
    forall id | id in s'.jobs ensures JobInv(s', id) {
      JobInvFrame(s, s', id);
    }
    forall ip ensures AddressInv(cfg, host, s', ip) {
      assert AddressInv(cfg, host, s, ip);
      assert Unheld(s', ip) ==> Unheld(s, ip);
    }
  }

  lemma AllocateFrame(cfg: Config, table: Table, id: string, other: string)
    requires other in table && (other == id ==> Lookup(table, id).Some?)
    ensures other in Allocate(cfg, table, id).0 && Allocate(cfg, table, id).0[other] == table[other]
  {
  }

  lemma AllocateSpares(cfg: Config, table: Table, id: string, other: string)
    requires Good(cfg, table) && other in table
    ensures other in Allocate(cfg, table, id).0 && Allocate(cfg, table, id).0[other] == table[other]
  {
    if other == id {
      GoodLookup(cfg, table, id);
    }
    AllocateFrame(cfg, table, id, other);
  }

  lemma GrantIsIn(cfg: Config, table: Table, id: string)
    requires Allocate(cfg, table, id).1.Some?
    ensures id in Allocate(cfg, table, id).0
  {
  }

  lemma GoodIsInjective(cfg: Config, s: State, id: string)
    requires Good(cfg, s.leases) && id in s.leases && id !in s.jobs
    ensures Unheld(s, s.leases[id])
  {
  }

  /** A container that appears with no rule, or disappears with none left, keeps the invariant. */
  lemma JobAppears(cfg: Config, host: seq<Rule>, s: State, id: string, ms: seq<PortMapping>)
    requires Inv(cfg, host, s) && id !in s.jobs && id in s.leases
    ensures Inv(cfg, host, s.(jobs := s.jobs[id := Job(ms, 0, 0, false)]))
  {
    var s' := s.(jobs := s.jobs[id := Job(ms, 0, 0, false)]);
    LeaseIsGrantable(cfg, s.leases, id);
    GoodIsInjective(cfg, s, id);
    assert AddressInv(cfg, host, s, s.leases[id]);
    forall x | x in s'.jobs ensures JobInv(s', x) {
      if x != id {
        JobInvFrame(s, s', x);
      }
    }
    forall ip ensures AddressInv(cfg, host, s', ip) {
      assert AddressInv(cfg, host, s, ip);
      assert Unheld(s', ip) ==> Unheld(s, ip) by {
        assert forall x :: x in s.jobs ==> x in s'.jobs;
      }
    }
  }

  lemma JobVanishes(cfg: Config, host: seq<Rule>, s: State, id: string)
    requires Inv(cfg, host, s) && id in s.jobs && s.jobs[id].lo == s.jobs[id].hi
    ensures Inv(cfg, host, s.(jobs := s.jobs - {id}))
  {
    var s' := s.(jobs := s.jobs - {id});
    assert JobInv(s, id);
    forall x | x in s'.jobs ensures JobInv(s', x) {
      JobInvFrame(s, s', x);
    }
    LeaseIsGrantable(cfg, s.leases, id);
    forall ip ensures AddressInv(cfg, host, s', ip) {
      assert AddressInv(cfg, host, s, ip);
      if ip != s.leases[id] {
        assert Unheld(s', ip) ==> Unheld(s, ip);
      }
    }
  }

  /** A step that moves only the rules of `id`'s address, and `id`'s slice with them. */
  lemma RulesMove(cfg: Config, host: seq<Rule>, s: State, s': State, id: string)
    requires Inv(cfg, host, s) && id in s.jobs
    requires s'.cfg == s.cfg && s'.leases == s.leases
    requires s'.jobs.Keys == s.jobs.Keys && forall x :: x in s.jobs && x != id ==> s'.jobs[x] == s.jobs[x]
    requires forall ip :: ip != s.leases[id] ==> Owned(s'.rules, ip) == Owned(s.rules, ip)
    requires JobInv(s', id)
    ensures Inv(cfg, host, s')
  {
    LeaseIsGrantable(cfg, s.leases, id);
    forall x | x in s'.jobs ensures JobInv(s', x) {
      if x != id {
        assert s.leases[x] != s.leases[id];
        JobInvFrame(s, s', x);
      }
    }
    forall ip ensures AddressInv(cfg, host, s', ip) {
      assert AddressInv(cfg, host, s, ip);
      assert Unheld(s', ip) ==> Unheld(s, ip) && ip != s.leases[id];
    }
  }

  /** The rule at place `k` of a container's list serves the container's address. */
  lemma ListServes(s: State, id: string, k: nat)
    requires Active(s, id) && k < |Full(s, id)|
    ensures RuleIP(Full(s, id)[k]) == s.leases[id]
  {
    RulesServeTheirIP(s.leases[id], s.jobs[id].ms);
    assert Full(s, id)[k] in Full(s, id);
  }

  lemma OwnedAppend(rules: seq<Rule>, r: Rule, ip: string)
    ensures Owned(rules + [r], ip) == if RuleIP(r) == ip then Owned(rules, ip) + [r] else Owned(rules, ip)
  {
    OwnedConcat(rules, [r], ip);
    assert Owned([r], ip) == Serving(r, ip);
  }

  lemma SliceGrows<T>(full: seq<T>, lo: nat, hi: nat)
    requires lo <= hi < |full|
    ensures full[lo..hi] + [full[hi]] == full[lo..hi + 1]
  {
  }

  predicate CanAdd(s: State, id: string) {
    Active(s, id) && !s.jobs[id].cleaning && s.jobs[id].hi < |Full(s, id)|
  }

  lemma AddEffect(s: State, id: string, ip: string)
    requires CanAdd(s, id)
    ensures var r := Full(s, id)[s.jobs[id].hi];
            Owned(Next(s, AddRule(id)).rules, ip) == if ip == s.leases[id] then Owned(s.rules, ip) + [r] else Owned(s.rules, ip)
  {
    ListServes(s, id, s.jobs[id].hi);
    OwnedAppend(s.rules, Full(s, id)[s.jobs[id].hi], ip);
  }

  lemma AddGrowsSlice(s: State, id: string)
    requires CanAdd(s, id) && JobInv(s, id)
    ensures Active(Next(s, AddRule(id)), id) && JobInv(Next(s, AddRule(id)), id)
  {
    AddEffect(s, id, s.leases[id]);
    SliceGrows(Full(s, id), s.jobs[id].lo, s.jobs[id].hi);
  }

  lemma AddKeepsInv(cfg: Config, host: seq<Rule>, s: State, id: string)
    requires Inv(cfg, host, s)
    ensures Inv(cfg, host, Next(s, AddRule(id)))
  {
    if CanAdd(s, id) {
      AddGrowsSlice(s, id);
      forall ip | ip != s.leases[id] ensures Owned(Next(s, AddRule(id)).rules, ip) == Owned(s.rules, ip) {
        AddEffect(s, id, ip);
      }
      RulesMove(cfg, host, s, Next(s, AddRule(id)), id);
    }
  }

  predicate CanDelete(s: State, id: string) {
    Active(s, id) && s.jobs[id].cleaning && s.jobs[id].lo < |Full(s, id)|
  }

  lemma DeleteEffect(s: State, id: string, ip: string)
    requires CanDelete(s, id)
    ensures var r := Full(s, id)[s.jobs[id].lo];
            Owned(Next(s, DeleteRule(id)).rules, ip) ==
            if ip == s.leases[id] then Delete(Owned(s.rules, ip), r) else Owned(s.rules, ip)
  {
    ListServes(s, id, s.jobs[id].lo);
    OwnedDelete(s.rules, Full(s, id)[s.jobs[id].lo], ip);
  }

  lemma FirstDeleted(full: seq<Rule>, lo: nat, hi: nat)
    requires lo < hi <= |full|
    ensures Delete(full[lo..hi], full[lo]) == full[lo + 1..hi]
  {
    assert full[lo..hi][0] == full[lo] && full[lo..hi][1..] == full[lo + 1..hi];
  }

  lemma DeleteShrinksSlice(s: State, id: string)
    requires CanDelete(s, id) && JobInv(s, id)
    ensures Active(Next(s, DeleteRule(id)), id) && JobInv(Next(s, DeleteRule(id)), id)
  {
    DeleteEffect(s, id, s.leases[id]);
    FirstDeleted(Full(s, id), s.jobs[id].lo, s.jobs[id].hi);
  }

  lemma DeleteKeepsInv(cfg: Config, host: seq<Rule>, s: State, id: string)
    requires Inv(cfg, host, s)
    ensures Inv(cfg, host, Next(s, DeleteRule(id)))
  {
    if CanDelete(s, id) {
      DeleteShrinksSlice(s, id);
      forall ip | ip != s.leases[id] ensures Owned(Next(s, DeleteRule(id)).rules, ip) == Owned(s.rules, ip) {
        DeleteEffect(s, id, ip);
      }
      RulesMove(cfg, host, s, Next(s, DeleteRule(id)), id);
    }
  }

  lemma LeaseKeepsInv(cfg: Config, host: seq<Rule>, s: State, id: string, ms: seq<PortMapping>)
    requires Inv(cfg, host, s)
    ensures Inv(cfg, host, Next(s, Lease(id, ms)))
  {
    if Next(s, Lease(id, ms)) != s {
      AllocationStep(cfg, host, s, id);
      GrantIsIn(cfg, s.leases, id);
      JobAppears(cfg, host, s.(leases := Allocate(cfg, s.leases, id).0), id, ms);
    }
  }

  lemma ReleaseKeepsInv(cfg: Config, host: seq<Rule>, s: State, id: string)
    requires Inv(cfg, host, s)
    ensures Inv(cfg, host, Next(s, ReleaseLease(id)))
  {
    if Next(s, ReleaseLease(id)) != s {
      assert JobInv(s, id);
      JobVanishes(cfg, host, s, id);
      ReleaseKeepsGood(cfg, s.leases, id);
      LeasesChange(cfg, host, s.(jobs := s.jobs - {id}), Release(s.leases, id));
    }
  }

  lemma CleanupKeepsInv(cfg: Config, host: seq<Rule>, s: State, id: string)
    requires Inv(cfg, host, s)
    ensures Inv(cfg, host, Next(s, StartCleanup(id)))
  {
    if Next(s, StartCleanup(id)) != s {
      assert JobInv(s, id);
      RulesMove(cfg, host, s, Next(s, StartCleanup(id)), id);
    }
  }

  lemma OtherReleaseKeepsInv(cfg: Config, host: seq<Rule>, s: State, id: string)
    requires Inv(cfg, host, s)
    ensures Inv(cfg, host, Next(s, OtherRelease(id)))
  {
    if id !in s.jobs {
      ReleaseKeepsGood(cfg, s.leases, id);
      LeasesChange(cfg, host, s, Release(s.leases, id));
    }
  }

  lemma StepKeepsInv(cfg: Config, host: seq<Rule>, s: State, e: Event)
    requires Inv(cfg, host, s)
    ensures Inv(cfg, host, Next(s, e))
  {
    match e
    case Lease(id, ms) => LeaseKeepsInv(cfg, host, s, id, ms);
    case AddRule(id) => AddKeepsInv(cfg, host, s, id);
    case StartCleanup(id) => CleanupKeepsInv(cfg, host, s, id);
    case DeleteRule(id) => DeleteKeepsInv(cfg, host, s, id);
    case ReleaseLease(id) => ReleaseKeepsInv(cfg, host, s, id);
    case OtherLease(id) => AllocationStep(cfg, host, s, id);
    case OtherRelease(id) => OtherReleaseKeepsInv(cfg, host, s, id);
  }

  lemma AllocationStep(cfg: Config, host: seq<Rule>, s: State, id: string)
    requires Inv(cfg, host, s)
    ensures Inv(cfg, host, s.(leases := Allocate(cfg, s.leases, id).0))
  {
    AllocateKeepsGood(cfg, s.leases, id);
    forall x | x in s.jobs ensures x in Allocate(cfg, s.leases, id).0 && Allocate(cfg, s.leases, id).0[x] == s.leases[x] {
      AllocateSpares(cfg, s.leases, id, x);
    }
    LeasesChange(cfg, host, s, Allocate(cfg, s.leases, id).0);
  }

  /** A host table whose rules serve no grantable address. */
  ghost predicate CleanHost(cfg: Config, host: seq<Rule>) {
    forall r :: r in host ==> !Grantable(cfg, RuleIP(r))
  }

  /** The leases of earlier containers may still be in the table. */
  function Init(cfg: Config, leases: Table, host: seq<Rule>): State {
    State(cfg, leases, map[], host)
  }

  lemma InvAlways(cfg: Config, leases: Table, host: seq<Rule>, events: seq<Event>)
    requires CleanHost(cfg, host) && Good(cfg, leases)
    ensures Inv(cfg, host, Runs.Exec(Next, Init(cfg, leases, host), events))
  {
    var inv := s => Inv(cfg, host, s);
    forall s, e | inv(s) ensures inv(Next(s, e)) {
      StepKeepsInv(cfg, host, s, e);
    }
    forall ip | Grantable(cfg, ip) ensures Owned(host, ip) == [] {
      OwnedEmptyIff(host, ip);
    }
    assert inv(Init(cfg, leases, host));
    Runs.InvariantHolds(Next, inv, Init(cfg, leases, host), events);
  }

  // ---------------------------------------------------------------------------
  // Main results
  // ---------------------------------------------------------------------------

  /** Over every interleaving, each address owns exactly what its container announced: a fully set up
      container its whole rule list in order, an address without container nothing, and rules serving
      other addresses are the host's own. */
  lemma RuleOwnership(cfg: Config, leases: Table, host: seq<Rule>, events: seq<Event>, ip: string)
    requires CleanHost(cfg, host) && Good(cfg, leases)
    ensures var s := Runs.Exec(Next, Init(cfg, leases, host), events);
            && (forall id :: id in s.jobs && s.jobs[id].lo == 0 && Active(s, id) && s.jobs[id].hi == |Full(s, id)| ==>
                  Owned(s.rules, s.leases[id]) == RulesFor(s.leases[id], s.jobs[id].ms))
            && (Grantable(cfg, ip) && Unheld(s, ip) ==> Owned(s.rules, ip) == [])
            && (!Grantable(cfg, ip) ==> Owned(s.rules, ip) == Owned(host, ip))
  {
    InvAlways(cfg, leases, host, events);
    var s := Runs.Exec(Next, Init(cfg, leases, host), events);
    forall id | id in s.jobs && s.jobs[id].lo == 0 && Active(s, id) && s.jobs[id].hi == |Full(s, id)|
      ensures Owned(s.rules, s.leases[id]) == RulesFor(s.leases[id], s.jobs[id].ms)
    {
      assert JobInv(s, id);
    }
    assert AddressInv(cfg, host, s, ip);
  }

  /** As multisets: a rule occurs in the table as often as in the list of the container that holds its address. */
  lemma RuleMultiplicity(cfg: Config, leases: Table, host: seq<Rule>, events: seq<Event>, id: string, r: Rule)
    requires CleanHost(cfg, host) && Good(cfg, leases)
    requires var s := Runs.Exec(Next, Init(cfg, leases, host), events);
             Active(s, id) && RuleIP(r) == s.leases[id]
    ensures var s := Runs.Exec(Next, Init(cfg, leases, host), events);
            s.jobs[id].lo <= s.jobs[id].hi <= |Full(s, id)|
            && multiset(s.rules)[r] == multiset(Full(s, id)[s.jobs[id].lo..s.jobs[id].hi])[r]
  {
    InvAlways(cfg, leases, host, events);
    var s := Runs.Exec(Next, Init(cfg, leases, host), events);
    assert JobInv(s, id);
    OwnedMultiplicity(s.rules, r);
  }

  /** A container's own commands never touch the rules of other addresses, nor their order among each other. */
  lemma OthersUntouched(cfg: Config, leases: Table, host: seq<Rule>, events: seq<Event>, id: string)
    requires CleanHost(cfg, host) && Good(cfg, leases)
    requires Active(Runs.Exec(Next, Init(cfg, leases, host), events), id)
    ensures var s := Runs.Exec(Next, Init(cfg, leases, host), events);
            && Others(Next(s, AddRule(id)).rules, s.leases[id]) == Others(s.rules, s.leases[id])
            && Others(Next(s, DeleteRule(id)).rules, s.leases[id]) == Others(s.rules, s.leases[id])
  {
    var s := Runs.Exec(Next, Init(cfg, leases, host), events);
    var j, full, ip := s.jobs[id], Full(s, id), s.leases[id];
    if j.hi < |full| {
      ListServes(s, id, j.hi);
      OthersConcat(s.rules, [full[j.hi]], ip);
      assert Others([full[j.hi]], ip) == [];
    }
    if j.lo < |full| {
      ListServes(s, id, j.lo);
      OthersDelete(s.rules, full[j.lo], ip);
    }
  }

  /** In every reachable state, cleaning up after a fully set up container leaves exactly the other rules. */
  lemma CleanupRemovesItsOwn(cfg: Config, leases: Table, host: seq<Rule>, events: seq<Event>, id: string)
    requires CleanHost(cfg, host) && Good(cfg, leases)
    requires var s := Runs.Exec(Next, Init(cfg, leases, host), events);
             Active(s, id) && s.jobs[id].lo == 0 && s.jobs[id].hi == |Full(s, id)|
    ensures var s := Runs.Exec(Next, Init(cfg, leases, host), events);
            DeleteAll(s.rules, RulesFor(s.leases[id], s.jobs[id].ms)) == Others(s.rules, s.leases[id])
  {
    InvAlways(cfg, leases, host, events);
    var s := Runs.Exec(Next, Init(cfg, leases, host), events);
    assert JobInv(s, id);
    RemovalIsExact(s.rules, s.leases[id], s.jobs[id].ms);
  }

  /** In every reachable state a packet from outside to a host port of a fully set up container, which no rule of
      another address matches, goes to the container port of the first mapping for it. */
  lemma PacketsReachTheirContainer(cfg: Config, leases: Table, host: seq<Rule>, events: seq<Event>, id: string,
                                   i: nat, dest: string)
    requires CleanHost(cfg, host) && Good(cfg, leases)
    requires var s := Runs.Exec(Next, Init(cfg, leases, host), events);
             && Active(s, id) && s.jobs[id].lo == 0 && s.jobs[id].hi == |Full(s, id)|
             && i < |s.jobs[id].ms|
             && var ms := s.jobs[id].ms;
                && (forall j :: 0 <= j < i ==> Proto(ms[j]) != Proto(ms[i]) || ms[j].hostPort != ms[i].hostPort)
                && FirstHit(Others(s.rules, s.leases[id]), Packet(Prerouting, Proto(ms[i]), dest, ms[i].hostPort)) == None
    ensures var s := Runs.Exec(Next, Init(cfg, leases, host), events);
            var m := s.jobs[id].ms[i];
            FirstHit(s.rules, Packet(Prerouting, Proto(m), dest, m.hostPort)) == Some(Dnat(s.leases[id], m.containerPort))
  {
    InvAlways(cfg, leases, host, events);
    var s := Runs.Exec(Next, Init(cfg, leases, host), events);
    LeaseIsGrantable(cfg, s.leases, id);
    GrantableIsText(cfg, s.leases[id]);
    RuleOwnership(cfg, leases, host, events, s.leases[id]);
    OwnedForwards(s.rules, s.leases[id], s.jobs[id].ms, i, dest);
  }

  lemma OwnedForwards(rules: seq<Rule>, ip: string, ms: seq<PortMapping>, i: nat, dest: string)
    requires ip != "" && Owned(rules, ip) == RulesFor(ip, ms) && i < |ms|
    requires forall j :: 0 <= j < i ==> Proto(ms[j]) != Proto(ms[i]) || ms[j].hostPort != ms[i].hostPort
    requires FirstHit(Others(rules, ip), Packet(Prerouting, Proto(ms[i]), dest, ms[i].hostPort)) == None
    ensures FirstHit(rules, Packet(Prerouting, Proto(ms[i]), dest, ms[i].hostPort)) == Some(Dnat(ip, ms[i].containerPort))
  {
    var p := Packet(Prerouting, Proto(ms[i]), dest, ms[i].hostPort);
    OwnRulesDecide(rules, ip, p);
    ListForwards(ip, ms, i, p);
  }

  lemma GrantableIsText(cfg: Config, ip: string)
    requires Grantable(cfg, ip)
    ensures ip != ""
  {
    var i :| FIRST_HOST <= i < HOST_LIMIT && ip == CandidateText(cfg, i);
    assert |ip| > 0;
  }
}
