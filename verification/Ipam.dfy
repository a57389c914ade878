/** The address allocator: a table from container to dotted-quad text, kept in a file. */
module Ipam {
  import opened Ipv4
  import opened Prelude

  type Table = map<string, string>

  /** What `NewIPAM` derives from a parsed CIDR: the masked network and the gateway, host 1. */
  datatype Config = Config(subnet: Subnet, gateway: IP)

  const FIRST_HOST := 2
  const HOST_LIMIT := 255
  const CAPACITY := 253

  function NewConfig(ip: IP, prefix: nat): Config {
    var base := Mask(ip, prefix);
    Config(Subnet(base, prefix), base.(d := 1))
  }

  function Candidate(cfg: Config, i: nat): IP
    requires i < 0x100
  {
    cfg.subnet.base.(d := i as uint8)
  }

  function CandidateText(cfg: Config, i: nat): string
    requires i < 0x100
  {
    Dotted(Candidate(cfg, i))
  }

  /** The gateway is host 1 of the candidates' own network, as `NewIPAM` makes it. */
  predicate GatewayIsHostOne(cfg: Config) {
    cfg.gateway == Candidate(cfg, 1)
  }

  // ---------------------------------------------------------------------------
  // The three operations as functions on the table
  // ---------------------------------------------------------------------------

  predicate Free(cfg: Config, table: Table, i: nat)
    requires i < HOST_LIMIT
  {
    CandidateText(cfg, i) !in table.Values && Candidate(cfg, i) != cfg.gateway
  }

  /** The least free host from `i` on, or `HOST_LIMIT`. */
  function FirstFree(cfg: Config, table: Table, i: nat): (r: nat)
    requires i <= HOST_LIMIT
    ensures i <= r <= HOST_LIMIT
    ensures r < HOST_LIMIT ==> Free(cfg, table, r)
    ensures forall j :: i <= j < r ==> !Free(cfg, table, j)
    decreases HOST_LIMIT - i
  {
    if i == HOST_LIMIT || Free(cfg, table, i) then i else FirstFree(cfg, table, i + 1)
  }

  function Lookup(table: Table, id: string): Option<IP> {
    if id in table then ParseIP(table[id]) else None
  }

  function Allocate(cfg: Config, table: Table, id: string): (Table, Option<IP>) {
    if Lookup(table, id).Some? then (table, Lookup(table, id))
    else
      var i := FirstFree(cfg, table, FIRST_HOST);
      if i == HOST_LIMIT then (table, None)
      else (table[id := CandidateText(cfg, i)], Some(Candidate(cfg, i)))
  }

  function Release(table: Table, id: string): Table {
    table - {id}
  }

  // ---------------------------------------------------------------------------
  // Reachable tables
  // ---------------------------------------------------------------------------

  /** `id` leases host `i`. */
  predicate Leases(cfg: Config, table: Table, id: string, i: nat) {
    FIRST_HOST <= i < HOST_LIMIT && id in table && table[id] == CandidateText(cfg, i)
  }

  /** Every lease is a host from .2 to .254 other than the gateway, and no two containers share one. */
  ghost predicate Good(cfg: Config, table: Table) {
    && (forall id :: id in table ==> exists i :: Leases(cfg, table, id, i) && Candidate(cfg, i) != cfg.gateway)
    && (forall x, y :: x in table && y in table && table[x] == table[y] ==> x == y)
  }

  lemma CandidateTextInjective(cfg: Config, i: nat, j: nat)
    requires i < 0x100 && j < 0x100
    ensures CandidateText(cfg, i) == CandidateText(cfg, j) <==> i == j
  {
    if CandidateText(cfg, i) == CandidateText(cfg, j) {
      DottedInjective(Candidate(cfg, i), Candidate(cfg, j));
    }
  }

  lemma AllocateKeepsGood(cfg: Config, table: Table, id: string)
    requires Good(cfg, table)
    ensures Good(cfg, Allocate(cfg, table, id).0)
  {
    var i := FirstFree(cfg, table, FIRST_HOST);
    var table' := Allocate(cfg, table, id).0;
    if table' != table {
      assert Leases(cfg, table', id, i);
      forall x | x in table' ensures exists i :: Leases(cfg, table', x, i) && Candidate(cfg, i) != cfg.gateway {
        if x != id {
          var k :| Leases(cfg, table, x, k) && Candidate(cfg, k) != cfg.gateway;
          assert Leases(cfg, table', x, k);
        }
      }
      assert forall x :: x in table ==> table[x] in table.Values;
    }
  }

  lemma ReleaseKeepsGood(cfg: Config, table: Table, id: string)
    requires Good(cfg, table)
    ensures Good(cfg, Release(table, id))
  {
    var table' := Release(table, id);
    forall x | x in table' ensures exists i :: Leases(cfg, table', x, i) && Candidate(cfg, i) != cfg.gateway {
      var k :| Leases(cfg, table, x, k) && Candidate(cfg, k) != cfg.gateway;
      assert Leases(cfg, table', x, k);
    }
  }

  /** In a good table a lease always parses, to a candidate that prints back to the entry. */
  lemma GoodLookup(cfg: Config, table: Table, id: string)
    requires Good(cfg, table)
    ensures Lookup(table, id).Some? <==> id in table
    ensures id in table ==> table[id] == Dotted(Lookup(table, id).value)
    ensures id in table ==> exists i :: Leases(cfg, table, id, i) && Lookup(table, id) == Some(Candidate(cfg, i))
  {
    if id in table {
      var i :| Leases(cfg, table, id, i) && Candidate(cfg, i) != cfg.gateway;
      DottedIff(table[id], Candidate(cfg, i));
    }
  }

  // ---------------------------------------------------------------------------
  // Completeness
  // ---------------------------------------------------------------------------

  ghost function LeasedHosts(cfg: Config, table: Table): set<nat> {
    set i: nat | FIRST_HOST <= i < HOST_LIMIT && CandidateText(cfg, i) in table.Values
  }

  lemma HostOf(cfg: Config, table: Table, id: string) returns (i: nat)
    requires Good(cfg, table) && id in table
    ensures Leases(cfg, table, id, i)
  {
    i :| Leases(cfg, table, id, i) && Candidate(cfg, i) != cfg.gateway;
  }

  /** A good table leases as many hosts as it has entries. */
  lemma {:induction false} HostCount(cfg: Config, table: Table)
    requires Good(cfg, table)
    ensures |LeasedHosts(cfg, table)| == |table|
    decreases |table|
  {
    if table.Keys == {} {
      NoLeasedHosts(cfg, table);
    } else {
      var id :| id in table.Keys;
      ReleaseKeepsGood(cfg, table, id);
      RemovalShrinks(table, id);
      HostCount(cfg, Release(table, id));
      var i := HostOf(cfg, table, id);
      LeaseRemoved(cfg, table, id, i);
    }
  }

  lemma RemovalShrinks(table: Table, id: string)
    requires id in table
    ensures |Release(table, id)| == |table| - 1
  {
    assert Release(table, id).Keys == table.Keys - {id};
  }

  lemma NoLeasedHosts(cfg: Config, table: Table)
    requires table.Keys == {}
    ensures |LeasedHosts(cfg, table)| == 0 == |table|
  {
    assert LeasedHosts(cfg, table) == {};
  }

  /** Removing an entry of an injective table removes just its text from the texts in use. */
  lemma ValueRemoved(table: Table, id: string)
    requires id in table && forall x :: x in table && table[x] == table[id] ==> x == id
    ensures Release(table, id).Values == table.Values - {table[id]}
  {
    var less := Release(table, id);
    forall v | v in table.Values - {table[id]} ensures v in less.Values {
      var x :| x in table && table[x] == v;
      assert x in less && less[x] == v;
    }
  }

  lemma LeaseRemoved(cfg: Config, table: Table, id: string, i: nat)
    requires Good(cfg, table) && Leases(cfg, table, id, i)
    ensures |LeasedHosts(cfg, table)| == |LeasedHosts(cfg, Release(table, id))| + 1
  {
    var less := Release(table, id);
    ValueRemoved(table, id);
    forall j: nat | FIRST_HOST <= j < HOST_LIMIT
      ensures j in LeasedHosts(cfg, less) <==> j in LeasedHosts(cfg, table) && j != i
    {
      CandidateTextInjective(cfg, i, j);
    }
    assert LeasedHosts(cfg, less) == LeasedHosts(cfg, table) - {i};
    assert CandidateText(cfg, i) in table.Values;
  }

  predicate IsHost(i: nat, limit: nat) { FIRST_HOST <= i < limit }

  ghost function HostsBelow(limit: nat): set<nat> {
    set i: nat | i < limit && IsHost(i, limit)
  }

  lemma {:induction false} HostsBelowSize(limit: nat)
    requires limit >= FIRST_HOST
    ensures |HostsBelow(limit)| == limit - FIRST_HOST
  {
    if limit == FIRST_HOST {
      assert HostsBelow(limit) == {};
    } else {
      HostsBelowSize(limit - 1);
      assert IsHost(limit - 1, limit);
      assert forall i: nat :: i < limit - 1 ==> (IsHost(i, limit) <==> IsHost(i, limit - 1));
      assert HostsBelow(limit) == HostsBelow(limit - 1) + {limit - 1};
    }
  }

  lemma SubsetFull(s: set<nat>, t: set<nat>)
    requires s <= t
    ensures |s| <= |t| && (|s| == |t| ==> s == t)
  {
    assert t == s + (t - s);
    assert |t| == |s| + |t - s|;
  }

  /** No host is free exactly when all 253 are leased, which is when the table has 253 entries. */
  lemma FullIff(cfg: Config, table: Table)
    requires GatewayIsHostOne(cfg) && Good(cfg, table)
    ensures |table| <= CAPACITY
    ensures FirstFree(cfg, table, FIRST_HOST) == HOST_LIMIT <==> |table| == CAPACITY
  {
    HostCount(cfg, table);
    var all, leased := HostsBelow(HOST_LIMIT), LeasedHosts(cfg, table);
    HostsBelowSize(HOST_LIMIT);
    assert forall j: nat :: j in leased ==> IsHost(j, HOST_LIMIT);
    SubsetFull(leased, all);
    var i := FirstFree(cfg, table, FIRST_HOST);
    if i == HOST_LIMIT {
      NoneFree(cfg, table);
    } else {
      assert IsHost(i, HOST_LIMIT) && i in all && i !in leased;
    }
  }

  lemma NoneFree(cfg: Config, table: Table)
    requires GatewayIsHostOne(cfg) && FirstFree(cfg, table, FIRST_HOST) == HOST_LIMIT
    ensures LeasedHosts(cfg, table) == HostsBelow(HOST_LIMIT)
  {
    forall j: nat | FIRST_HOST <= j < HOST_LIMIT ensures CandidateText(cfg, j) in table.Values && IsHost(j, HOST_LIMIT) {
      assert !Free(cfg, table, j);
      assert Candidate(cfg, j).d != cfg.gateway.d;
    }
    forall j: nat ensures j in LeasedHosts(cfg, table) <==> j in HostsBelow(HOST_LIMIT) {
      assert IsHost(j, HOST_LIMIT) <==> FIRST_HOST <= j < HOST_LIMIT;
    }
  }

  /** A fresh container gets the least unleased host while fewer than 253 leases exist;
      exhaustion is reported at exactly 253, and no table has more. */
  lemma FirstFitComplete(cfg: Config, table: Table, id: string)
    requires GatewayIsHostOne(cfg) && Good(cfg, table)
    ensures |table| <= 253
    ensures Allocate(cfg, table, id).1 == None <==> id !in table && |table| == 253
    ensures id !in table && |table| < 253 ==>
              exists i :: 2 <= i <= 254
                && Allocate(cfg, table, id).1 == Some(Host(cfg, i))
                && Dotted(Host(cfg, i)) !in table.Values
                && forall j :: 2 <= j < i ==> Dotted(Host(cfg, j)) in table.Values
  {
    FullIff(cfg, table);
    GoodLookup(cfg, table, id);
    var i := FirstFree(cfg, table, FIRST_HOST);
    forall j | 2 <= j < i ensures Dotted(Host(cfg, j)) in table.Values {
      assert !Free(cfg, table, j);
    }
    if id !in table && |table| < 253 {
      assert Allocate(cfg, table, id).1 == Some(Host(cfg, i));
    }
  }

  /** Host `i` of the last-octet range. */
  function Host(cfg: Config, i: int): IP
    requires 0 <= i < 0x100
  {
    IP(cfg.subnet.base.a, cfg.subnet.base.b, cfg.subnet.base.c, i as uint8)
  }

  /** Every host the allocator may grant lies in the subnet exactly when the prefix is at most 24. */
  lemma CandidatesInSubnetIff(ip: IP, prefix: nat)
    ensures (forall i :: FIRST_HOST <= i < HOST_LIMIT ==>
              Contains(NewConfig(ip, prefix).subnet, Candidate(NewConfig(ip, prefix), i))) <==> prefix <= 24
    ensures GatewayIsHostOne(NewConfig(ip, prefix))
  {
    var cfg := NewConfig(ip, prefix);
    MaskIdempotent(ip, prefix);
    if prefix > 24 {
      assert MaskOctet(2, Ones(prefix, 3)) <= 2 && MaskOctet(254, Ones(prefix, 3)) >= 128;
      assert !(Contains(cfg.subnet, Candidate(cfg, 2)) && Contains(cfg.subnet, Candidate(cfg, 254)));
    }
  }

  // ---------------------------------------------------------------------------
  // The allocator object
  // ---------------------------------------------------------------------------

  datatype Error = LockFailed | LoadFailed | SaveFailed | AddressSpaceExhausted

  datatype Result<T> = Ok(value: T) | Err(error: Error)

  /** Which of the environment's operations fail during one call. */
  datatype Faults = Faults(lock: bool, load: bool, save: bool)

  class IPAM {
    const cfg: Config
    /** The persisted table; `None` while the state file does not exist. */
    var stateFile: Option<Table>

    /** The state file is whatever earlier processes left. */
    constructor (ip: IP, prefix: nat, stateFile: Option<Table>)
      ensures cfg == NewConfig(ip, prefix) && this.stateFile == stateFile
      ensures Contains(cfg.subnet, Mask(ip, prefix)) && cfg.subnet.prefix == prefix
      ensures prefix <= 32 ==> Number(cfg.subnet.base) == Number(ip) - Number(ip) % Pow2(32 - prefix)
      ensures cfg.gateway == IP(cfg.subnet.base.a, cfg.subnet.base.b, cfg.subnet.base.c, 1)
    {
      MaskIdempotent(ip, prefix);
      if prefix <= 32 {
        MaskKeepsLeadingBits(ip, prefix);
      }
      cfg := NewConfig(ip, prefix);
      this.stateFile := stateFile;
    }

    function Stored(): Table
      reads this
    {
      if stateFile.Some? then stateFile.value else map[]
    }

    method LoadState(faults: Faults) returns (r: Result<Table>)
      ensures r == if faults.load then Err(LoadFailed) else Ok(Stored())
    {
      if faults.load {
        return Err(LoadFailed);
      }
      return Ok(if stateFile.None? then map[] else stateFile.value);
    }

    method SaveState(table: Table, faults: Faults) returns (ok: bool)
      modifies this
      ensures ok == !faults.save
      ensures stateFile == if ok then Some(table) else old(stateFile)
    {
      ok := !faults.save;
      if ok {
        stateFile := Some(table);
      }
    }

    /** Collects the texts in use by walking the table's entries. */
    static method UsedTexts(table: Table) returns (used: set<string>)
      ensures used == table.Values
    {
      used := {};
      var todo := table.Keys;
      while todo != {}
        invariant todo <= table.Keys
        invariant used == set id | id in table.Keys - todo :: table[id]
        decreases |todo|
      {
        var id :| id in todo;
        used := used + {table[id]};
        todo := todo - {id};
      }
      assert table.Keys - todo == table.Keys;
    }

    method AllocateIP(id: string, faults: Faults) returns (r: Result<IP>)
      modifies this
      ensures var (table', granted) := Allocate(cfg, old(Stored()), id);
              var saves := table' != old(Stored()) || (Lookup(old(Stored()), id) == None && granted.Some?);
              && (r == if faults.lock then Err(LockFailed)
                       else if faults.load then Err(LoadFailed)
                       else if saves && faults.save then Err(SaveFailed)
                       else if granted.None? then Err(AddressSpaceExhausted)
                       else Ok(granted.value))
              && (Stored() == if r.Ok? then table' else old(Stored()))
      ensures r.Ok? ==> id in Stored() && Stored()[id] == Dotted(r.value) && Stored() - {id} == old(Stored()) - {id}
      ensures id in old(Stored()) && ParseIP(old(Stored()[id])).Some? && r.Ok? ==> Stored() == old(Stored())
      ensures r.Err? ==> Stored() == old(Stored())
    {
      if faults.lock {
        return Err(LockFailed);
      }
      var loaded := LoadState(faults);
      if loaded.Err? {
        return Err(loaded.error);
      }
      var allocations := loaded.value;
      if id in allocations {
        var existing := ParseIP(allocations[id]);
        if existing.Some? {
          DottedIff(allocations[id], existing.value);
          return Ok(existing.value);
        }
      }
      var used := UsedTexts(allocations);
      for i := FIRST_HOST to HOST_LIMIT
        invariant stateFile == old(stateFile)
        invariant FirstFree(cfg, allocations, FIRST_HOST) == FirstFree(cfg, allocations, i)
      {
        var candidate := cfg.subnet.base.(d := i as uint8);
        var candText := Dotted(candidate);
        if candText !in used && candidate != cfg.gateway {
          allocations := allocations[id := candText];
          var ok := SaveState(allocations, faults);
          if !ok {
            return Err(SaveFailed);
          }
          return Ok(candidate);
        }
      }
      return Err(AddressSpaceExhausted);
    }

    method ReleaseIP(id: string, faults: Faults) returns (ok: bool)
      modifies this
      ensures ok <==> !faults.lock && !faults.load && !(id in old(Stored()) && faults.save)
      ensures Stored() == if ok then Release(old(Stored()), id) else old(Stored())
      ensures ok ==> id !in Stored() && Stored() == old(Stored()) - {id}
    {
      if faults.lock {
        return false;
      }
      var loaded := LoadState(faults);
      if loaded.Err? {
        return false;
      }
      var allocations := loaded.value;
      if id in allocations {
        allocations := allocations - {id};
        ok := SaveState(allocations, faults);
        return;
      }
      assert Release(allocations, id) == allocations;
      return true;
    }

    method GetIP(id: string, faults: Faults) returns (found: Option<IP>)
      ensures found == if faults.lock || faults.load then None else Lookup(Stored(), id)
      ensures found == if !faults.lock && !faults.load && id in Stored() then ParseIP(Stored()[id]) else None
    {
      if faults.lock {
        return None;
      }
      var loaded := LoadState(faults);
      if loaded.Err? {
        return None;
      }
      found := None;
      if id in loaded.value {
        var parsed := ParseIP(loaded.value[id]);
        if parsed.Some? {
          found := parsed;
        }
      }
    }
  }
}
