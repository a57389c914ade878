/** Port-forwarding rules, container links and their setup, rollback and cleanup. */
module Nat {
  import opened Ipv4
  import opened Prelude
  import opened Ipam

  datatype Chain = Prerouting | Output | Postrouting

  datatype Target = Dnat(ip: string, port: int) | Masquerade

  /** One rule of the nat table; `dest` is its `-d` address, or empty. */
  datatype Rule = Rule(chain: Chain, proto: string, dest: string, dport: int, target: Target)

  datatype PortMapping = PortMapping(hostPort: int, containerPort: int, protocol: string)

  function ToLower(s: string): string {
    if s == "" then ""
    else [if 'A' <= s[0] <= 'Z' then (s[0] as int + 32) as char else s[0]] + ToLower(s[1..])
  }

  function Proto(m: PortMapping): string {
    var proto := ToLower(m.protocol);
    if proto == "" then "tcp" else proto
  }

  predicate Supported(m: PortMapping) {
    Proto(m) == "tcp" || Proto(m) == "udp"
  }

  /** The four rules of one mapping, in the order they are added and deleted. */
  function MappingRules(ip: string, m: PortMapping): seq<Rule> {
    var target := Dnat(ip, m.containerPort);
    [Rule(Prerouting, Proto(m), "", m.hostPort, target),
     Rule(Output, Proto(m), "127.0.0.1", m.hostPort, target),
     Rule(Output, Proto(m), "10.200.0.1", m.hostPort, target),
     Rule(Postrouting, Proto(m), ip, m.containerPort, Masquerade)]
  }

  function RulesFor(ip: string, ms: seq<PortMapping>): seq<Rule> {
    if ms == [] then [] else MappingRules(ip, ms[0]) + RulesFor(ip, ms[1..])
  }

  /** The container address a rule serves. */
  function RuleIP(r: Rule): string {
    match r.target
    case Dnat(ip, _) => ip
    case Masquerade => r.dest
  }

  lemma {:induction false} RulesServeTheirIP(ip: string, ms: seq<PortMapping>)
    ensures forall r :: r in RulesFor(ip, ms) ==> RuleIP(r) == ip
  {
    if ms != [] {
      RulesServeTheirIP(ip, ms[1..]);
    }
  }

  /** `iptables -D`: the first equal rule goes; a missing one changes nothing. */
  function Delete(rules: seq<Rule>, r: Rule): seq<Rule> {
    if rules == [] then []
    else if rules[0] == r then rules[1..]
    else [rules[0]] + Delete(rules[1..], r)
  }

  function DeleteAll(rules: seq<Rule>, gone: seq<Rule>): seq<Rule>
    decreases |gone|
  {
    if gone == [] then rules else DeleteAll(Delete(rules, gone[0]), gone[1..])
  }

  /** The rules serving `ip`, in table order. */
  function Owned(rules: seq<Rule>, ip: string): seq<Rule> {
    if rules == [] then []
    else Serving(rules[0], ip) + Owned(rules[1..], ip)
  }

  function Serving(r: Rule, ip: string): seq<Rule> {
    if RuleIP(r) == ip then [r] else []
  }

  lemma {:induction false} OwnedConcat(a: seq<Rule>, b: seq<Rule>, ip: string)
    ensures Owned(a + b, ip) == Owned(a, ip) + Owned(b, ip)
  {
    if a == [] {
      assert a + b == b;
    } else {
      OwnedConcat(a[1..], b, ip);
      OwnedCons(a[0], a[1..] + b, ip);
      OwnedCons(a[0], a[1..], ip);
      assert a + b == [a[0]] + (a[1..] + b) && a == [a[0]] + a[1..];
      ConcatAssociates(Serving(a[0], ip), Owned(a[1..], ip), Owned(b, ip));
    }
  }

  lemma OwnedCons(r: Rule, rules: seq<Rule>, ip: string)
    ensures Owned([r] + rules, ip) == Serving(r, ip) + Owned(rules, ip)
  {
    assert ([r] + rules)[1..] == rules;
  }

  lemma DeleteBehind(front: seq<Rule>, rest: seq<Rule>, r: Rule)
    requires |front| <= 1 && r !in front
    ensures Delete(front + rest, r) == front + Delete(rest, r)
  {
    if front == [] {
      assert front + rest == rest && front + Delete(rest, r) == Delete(rest, r);
    } else {
      assert (front + rest)[1..] == rest && front == [front[0]];
    }
  }

  /** Deleting a rule acts on its own address only, and there like a deletion from that address's list. */
  lemma {:induction false} OwnedDelete(rules: seq<Rule>, r: Rule, ip: string)
    ensures Owned(Delete(rules, r), ip) ==
            if RuleIP(r) == ip then Delete(Owned(rules, ip), r) else Owned(rules, ip)
  {
    if rules != [] {
      var head, tail := rules[0], rules[1..];
      if head == r {
        assert Serving(r, ip) + Owned(tail, ip) == if RuleIP(r) == ip then [r] + Owned(tail, ip) else Owned(tail, ip);
        assert ([r] + Owned(tail, ip))[1..] == Owned(tail, ip);
      } else {
        OwnedDelete(tail, r, ip);
        OwnedCons(head, Delete(tail, r), ip);
        DeleteBehind(Serving(head, ip), Owned(tail, ip), r);
      }
    }
  }

  lemma {:induction false} OwnedEmptyIff(rules: seq<Rule>, ip: string)
    ensures Owned(rules, ip) == [] <==> forall r :: r in rules ==> RuleIP(r) != ip
  {
    if rules != [] {
      OwnedEmptyIff(rules[1..], ip);
      assert rules == [rules[0]] + rules[1..];
    }
  }

  /** How often a rule occurs is decided by the list of the address it serves. */
  lemma {:induction false} OwnedMultiplicity(rules: seq<Rule>, r: Rule)
    ensures multiset(rules)[r] == multiset(Owned(rules, RuleIP(r)))[r]
  {
    if rules != [] {
      var head, tail := rules[0], rules[1..];
      OwnedMultiplicity(tail, r);
      assert rules == [head] + tail;
      OneMoreRule(head, tail, Serving(head, RuleIP(r)), Owned(tail, RuleIP(r)), r);
    }
  }

  lemma OneMoreRule(head: Rule, tail: seq<Rule>, front: seq<Rule>, rest: seq<Rule>, r: Rule)
    requires multiset(tail)[r] == multiset(rest)[r] && (front == [head] || (front == [] && head != r))
    ensures multiset([head] + tail)[r] == multiset(front + rest)[r]
  {
  }

  lemma {:induction false} DeleteAllOwned(rules: seq<Rule>, gone: seq<Rule>, ip: string)
    requires (forall r :: r in gone ==> RuleIP(r) == ip) && gone <= Owned(rules, ip)
    ensures Owned(DeleteAll(rules, gone), ip) == Owned(rules, ip)[|gone|..]
    decreases |gone|
  {
    if gone != [] {
      OwnedDelete(rules, gone[0], ip);
      assert Delete(Owned(rules, ip), gone[0]) == Owned(rules, ip)[1..];
      DeleteAllOwned(Delete(rules, gone[0]), gone[1..], ip);
    }
  }

  /** The rules not serving `ip`, in table order. */
  function Others(rules: seq<Rule>, ip: string): seq<Rule> {
    if rules == [] then []
    else NotServing(rules[0], ip) + Others(rules[1..], ip)
  }

  function NotServing(r: Rule, ip: string): seq<Rule> {
    if RuleIP(r) == ip then [] else [r]
  }

  lemma OthersCons(r: Rule, rules: seq<Rule>, ip: string)
    ensures Others([r] + rules, ip) == NotServing(r, ip) + Others(rules, ip)
  {
    assert ([r] + rules)[1..] == rules;
  }

  lemma {:induction false} OthersConcat(a: seq<Rule>, b: seq<Rule>, ip: string)
    ensures Others(a + b, ip) == Others(a, ip) + Others(b, ip)
  {
    if a == [] {
      assert a + b == b;
    } else {
      OthersConcat(a[1..], b, ip);
      OthersCons(a[0], a[1..] + b, ip);
      OthersCons(a[0], a[1..], ip);
      assert a + b == [a[0]] + (a[1..] + b) && a == [a[0]] + a[1..];
      ConcatAssociates(NotServing(a[0], ip), Others(a[1..], ip), Others(b, ip));
    }
  }

  lemma {:induction false} OthersDelete(rules: seq<Rule>, r: Rule, ip: string)
    requires RuleIP(r) == ip
    ensures Others(Delete(rules, r), ip) == Others(rules, ip)
  {
    if rules != [] && rules[0] != r {
      OthersDelete(rules[1..], r, ip);
      OthersConcat([rules[0]], Delete(rules[1..], r), ip);
      assert Others([rules[0]], ip) == NotServing(rules[0], ip);
    }
  }

  lemma {:induction false} OthersDeleteAll(rules: seq<Rule>, gone: seq<Rule>, ip: string)
    requires forall r :: r in gone ==> RuleIP(r) == ip
    ensures Others(DeleteAll(rules, gone), ip) == Others(rules, ip)
    decreases |gone|
  {
    if gone != [] {
      OthersDelete(rules, gone[0], ip);
      OthersDeleteAll(Delete(rules, gone[0]), gone[1..], ip);
    }
  }

  lemma {:induction false} NoneOwned(rules: seq<Rule>, ip: string)
    requires Owned(rules, ip) == []
    ensures Others(rules, ip) == rules
  {
    if rules != [] {
      NoneOwned(rules[1..], ip);
    }
  }

  /** Removing a container's full rule list leaves exactly the rules of all other addresses, in table order. */
  lemma RemovalIsExact(rules: seq<Rule>, ip: string, ms: seq<PortMapping>)
    requires Owned(rules, ip) == RulesFor(ip, ms)
    ensures DeleteAll(rules, RulesFor(ip, ms)) == Others(rules, ip)
  {
    RulesServeTheirIP(ip, ms);
    DeleteAllOwned(rules, RulesFor(ip, ms), ip);
    OthersDeleteAll(rules, RulesFor(ip, ms), ip);
    NoneOwned(DeleteAll(rules, RulesFor(ip, ms)), ip);
  }

  // ---------------------------------------------------------------------------
  // Adding rules, when commands may fail
  // ---------------------------------------------------------------------------

  /** What the four commands starting at command number `n` leave once the first succeeded:
      failures of the other three are ignored. */
  function Kept(rules: seq<Rule>, accepts: nat -> bool, n: nat): seq<Rule>
    requires |rules| == 4
  {
    [rules[0]]
    + (if accepts(n + 1) then [rules[1]] else [])
    + (if accepts(n + 2) then [rules[2]] else [])
    + (if accepts(n + 3) then [rules[3]] else [])
  }

  /** The nat table and success flag after adding the mappings; `accepts(k)` says whether command `k` succeeds. */
  function Applied(nat_: seq<Rule>, ip: string, ms: seq<PortMapping>, accepts: nat -> bool, n: nat): (seq<Rule>, bool)
    decreases |ms|
  {
    if ms == [] then (nat_, true)
    else if !Supported(ms[0]) || !accepts(n) then (nat_, false)
    else Applied(nat_ + Kept(MappingRules(ip, ms[0]), accepts, n), ip, ms[1..], accepts, n + 4)
  }

  /** When all commands succeed and all protocols are supported, exactly the mappings' rules are appended. */
  lemma {:induction false} AppliedInFull(rules: seq<Rule>, ip: string, ms: seq<PortMapping>, accepts: nat -> bool, n: nat)
    requires (forall m :: m in ms ==> Supported(m)) && forall k :: accepts(k)
    ensures Applied(rules, ip, ms, accepts, n) == (rules + RulesFor(ip, ms), true)
    decreases |ms|
  {
    if ms == [] {
      assert rules + RulesFor(ip, ms) == rules;
    } else {
      var first := MappingRules(ip, ms[0]);
      assert Kept(first, accepts, n) == first;
      AppliedInFull(rules + first, ip, ms[1..], accepts, n + 4);
      assert rules + first + RulesFor(ip, ms[1..]) == rules + RulesFor(ip, ms);
    }
  }

  lemma {:induction false} AppliedGrows(rules: seq<Rule>, ip: string, ms: seq<PortMapping>, accepts: nat -> bool, n: nat)
    ensures rules <= Applied(rules, ip, ms, accepts, n).0
    decreases |ms|
  {
    if ms != [] && Supported(ms[0]) && accepts(n) {
      AppliedGrows(rules + Kept(MappingRules(ip, ms[0]), accepts, n), ip, ms[1..], accepts, n + 4);
    }
  }

  /** A failing call leaves the nat table as it was exactly when the very first mapping is refused. */
  lemma FailedForwardingLeavesNothingIff(rules: seq<Rule>, ip: string, ms: seq<PortMapping>, accepts: nat -> bool, n: nat)
    requires !Applied(rules, ip, ms, accepts, n).1
    ensures Applied(rules, ip, ms, accepts, n).0 == rules <==> !Supported(ms[0]) || !accepts(n)
  {
    if Supported(ms[0]) && accepts(n) {
      AppliedGrows(rules + Kept(MappingRules(ip, ms[0]), accepts, n), ip, ms[1..], accepts, n + 4);
    }
  }

  // ---------------------------------------------------------------------------
  // What the rules do to packets
  // ---------------------------------------------------------------------------

  /** A packet on its way through one chain of the nat table. */
  datatype Packet = Packet(chain: Chain, proto: string, dest: string, dport: int)

  predicate Hits(r: Rule, p: Packet) {
    r.chain == p.chain && r.proto == p.proto && (r.dest == "" || r.dest == p.dest) && r.dport == p.dport
  }

  /** The first rule that matches decides. */
  function FirstHit(rules: seq<Rule>, p: Packet): Option<Target> {
    if rules == [] then None
    else if Hits(rules[0], p) then Some(rules[0].target)
    else FirstHit(rules[1..], p)
  }

  lemma {:induction false} FirstHitConcat(a: seq<Rule>, b: seq<Rule>, p: Packet)
    ensures FirstHit(a + b, p) == if FirstHit(a, p).Some? then FirstHit(a, p) else FirstHit(b, p)
  {
    if a == [] {
      assert a + b == b;
    } else {
      assert (a + b)[1..] == a[1..] + b;
      FirstHitConcat(a[1..], b, p);
    }
  }

  /** The protocol of a mapping: its lower-case form, or tcp when there is none. */
  lemma {:induction false} ProtoIsLowerCase(m: PortMapping)
    ensures m.protocol == "" ==> Proto(m) == "tcp"
    ensures m.protocol != "" ==>
              && |Proto(m)| == |m.protocol|
              && forall k :: 0 <= k < |m.protocol| ==>
                   Proto(m)[k] == if 'A' <= m.protocol[k] <= 'Z' then (m.protocol[k] as int + 32) as char else m.protocol[k]
  {
    LowerCased(m.protocol);
  }

  lemma {:induction false} LowerCased(s: string)
    ensures |ToLower(s)| == |s|
    ensures forall k :: 0 <= k < |s| ==>
              ToLower(s)[k] == if 'A' <= s[k] <= 'Z' then (s[k] as int + 32) as char else s[k]
  {
    if s != "" {
      LowerCased(s[1..]);
    }
  }

  /** Packet `p` is from outside, to the host port of mapping `i` and of no earlier mapping. */
  predicate FirstFor(ms: seq<PortMapping>, i: nat, proto: string, hostPort: int) {
    && i < |ms| && Proto(ms[i]) == proto && ms[i].hostPort == hostPort
    && forall j :: 0 <= j < i ==> Proto(ms[j]) != proto || ms[j].hostPort != hostPort
  }

  /** One mapping's rules in numbers. */
  lemma MappingHits(ip: string, m: PortMapping, p: Packet)
    requires ip != ""
    ensures FirstHit(MappingRules(ip, m), p) ==
            if p.proto != Proto(m) then None
            else match p.chain
              case Prerouting => if p.dport == m.hostPort then Some(Dnat(ip, m.containerPort)) else None
              case Output =>
                if p.dport == m.hostPort && (p.dest == "127.0.0.1" || p.dest == "10.200.0.1")
                then Some(Dnat(ip, m.containerPort)) else None
              case Postrouting => if p.dport == m.containerPort && p.dest == ip then Some(Masquerade) else None
  {
    var rules := MappingRules(ip, m);
    assert rules == [rules[0]] + ([rules[1]] + ([rules[2]] + [rules[3]]));
    FirstHitConcat([rules[0]], [rules[1]] + ([rules[2]] + [rules[3]]), p);
    FirstHitConcat([rules[1]], [rules[2]] + [rules[3]], p);
    FirstHitConcat([rules[2]], [rules[3]], p);
  }

  /** The packets that mapping `i` and no earlier one is for: from outside, or local to one of the two host addresses. */
  lemma {:induction false} ListForwards(ip: string, ms: seq<PortMapping>, i: nat, p: Packet)
    requires ip != "" && FirstFor(ms, i, p.proto, p.dport)
    requires p.chain == Prerouting || (p.chain == Output && (p.dest == "127.0.0.1" || p.dest == "10.200.0.1"))
    ensures FirstHit(RulesFor(ip, ms), p) == Some(Dnat(ip, ms[i].containerPort))
  {
    MappingHits(ip, ms[0], p);
    FirstHitConcat(MappingRules(ip, ms[0]), RulesFor(ip, ms[1..]), p);
    if i > 0 {
      assert forall j :: 0 <= j < i - 1 ==> ms[1..][j] == ms[j + 1];
      ListForwards(ip, ms[1..], i - 1, p);
    }
  }

  /** A packet that no mapping is for meets none of the rules. */
  lemma {:induction false} ListIgnores(ip: string, ms: seq<PortMapping>, p: Packet)
    requires ip != ""
    requires forall m :: m in ms ==>
               || p.proto != Proto(m)
               || (if p.chain == Postrouting then p.dport != m.containerPort || p.dest != ip
                   else p.dport != m.hostPort || (p.chain == Output && p.dest != "127.0.0.1" && p.dest != "10.200.0.1"))
    ensures FirstHit(RulesFor(ip, ms), p) == None
  {
    if ms != [] {
      MappingHits(ip, ms[0], p);
      FirstHitConcat(MappingRules(ip, ms[0]), RulesFor(ip, ms[1..]), p);
      ListIgnores(ip, ms[1..], p);
    }
  }

  /** What was forwarded to a container port is masqueraded on its way out. */
  lemma {:induction false} ListMasquerades(ip: string, ms: seq<PortMapping>, i: nat)
    requires ip != "" && i < |ms|
    ensures FirstHit(RulesFor(ip, ms), Packet(Postrouting, Proto(ms[i]), ip, ms[i].containerPort)) == Some(Masquerade)
  {
    var p := Packet(Postrouting, Proto(ms[i]), ip, ms[i].containerPort);
    MappingHits(ip, ms[0], p);
    FirstHitConcat(MappingRules(ip, ms[0]), RulesFor(ip, ms[1..]), p);
    if i > 0 {
      ListMasquerades(ip, ms[1..], i - 1);
    }
  }

  /** After a forwarding set up in full: what happens to a packet that no rule matched before. */
  lemma PacketsAreForwarded(rules: seq<Rule>, ip: string, ms: seq<PortMapping>, accepts: nat -> bool, p: Packet)
    requires ip != "" && (forall m :: m in ms ==> Supported(m)) && (forall k :: accepts(k)) && FirstHit(rules, p) == None
    ensures var after := Applied(rules, ip, ms, accepts, 0).0;
            && (forall i ::
                  && 0 <= i < |ms| && FirstFor(ms, i, p.proto, p.dport)
                  && (p.chain == Prerouting || (p.chain == Output && (p.dest == "127.0.0.1" || p.dest == "10.200.0.1"))) ==>
                    FirstHit(after, p) == Some(Dnat(ip, ms[i].containerPort)))
            && (forall i :: 0 <= i < |ms| && p == Packet(Postrouting, Proto(ms[i]), ip, ms[i].containerPort) ==>
                  FirstHit(after, p) == Some(Masquerade))
            && ((forall m :: m in ms ==> p.proto != Proto(m) || (p.dport != m.hostPort && p.dport != m.containerPort)) ==>
                  FirstHit(after, p) == None)
  {
    AppliedInFull(rules, ip, ms, accepts, 0);
    FirstHitConcat(rules, RulesFor(ip, ms), p);
    forall i | 0 <= i < |ms| && FirstFor(ms, i, p.proto, p.dport) &&
               (p.chain == Prerouting || (p.chain == Output && (p.dest == "127.0.0.1" || p.dest == "10.200.0.1")))
      ensures FirstHit(RulesFor(ip, ms), p) == Some(Dnat(ip, ms[i].containerPort))
    {
      ListForwards(ip, ms, i, p);
    }
    forall i | 0 <= i < |ms| && p == Packet(Postrouting, Proto(ms[i]), ip, ms[i].containerPort)
      ensures FirstHit(RulesFor(ip, ms), p) == Some(Masquerade)
    {
      ListMasquerades(ip, ms, i);
    }
    if forall m :: m in ms ==> p.proto != Proto(m) || (p.dport != m.hostPort && p.dport != m.containerPort) {
      ListIgnores(ip, ms, p);
    }
  }

  /** Packets from outside reach the container as soon as the call succeeds, even if other commands were refused. */
  lemma {:induction false} OutsideIsForwarded(rules: seq<Rule>, ip: string, ms: seq<PortMapping>, accepts: nat -> bool,
                                              n: nat, i: nat, p: Packet)
    requires Applied(rules, ip, ms, accepts, n).1 && FirstHit(rules, p) == None
    requires p.chain == Prerouting && FirstFor(ms, i, p.proto, p.dport)
    ensures FirstHit(Applied(rules, ip, ms, accepts, n).0, p) == Some(Dnat(ip, ms[i].containerPort))
    decreases |ms|
  {
    var first := Kept(MappingRules(ip, ms[0]), accepts, n);
    FirstHitConcat(rules, first, p);
    KeptHits(ip, ms[0], accepts, n, p);
    if i == 0 {
      HitStays(rules + first, ip, ms[1..], accepts, n + 4, p);
    } else {
      assert forall j :: 0 <= j < i - 1 ==> ms[1..][j] == ms[j + 1];
      OutsideIsForwarded(rules + first, ip, ms[1..], accepts, n + 4, i - 1, p);
    }
  }

  lemma AllOutsideForwarded(rules: seq<Rule>, ip: string, ms: seq<PortMapping>, accepts: nat -> bool)
    requires Applied(rules, ip, ms, accepts, 0).1
    ensures forall i, dest ::
              && 0 <= i < |ms|
              && FirstHit(rules, Packet(Prerouting, Proto(ms[i]), dest, ms[i].hostPort)) == None
              && (forall j :: 0 <= j < i ==> Proto(ms[j]) != Proto(ms[i]) || ms[j].hostPort != ms[i].hostPort) ==>
                FirstHit(Applied(rules, ip, ms, accepts, 0).0, Packet(Prerouting, Proto(ms[i]), dest, ms[i].hostPort))
                == Some(Dnat(ip, ms[i].containerPort))
  {
    forall i, dest
      | && 0 <= i < |ms|
        && FirstHit(rules, Packet(Prerouting, Proto(ms[i]), dest, ms[i].hostPort)) == None
        && (forall j :: 0 <= j < i ==> Proto(ms[j]) != Proto(ms[i]) || ms[j].hostPort != ms[i].hostPort)
      ensures FirstHit(Applied(rules, ip, ms, accepts, 0).0, Packet(Prerouting, Proto(ms[i]), dest, ms[i].hostPort))
              == Some(Dnat(ip, ms[i].containerPort))
    {
      OutsideIsForwarded(rules, ip, ms, accepts, 0, i, Packet(Prerouting, Proto(ms[i]), dest, ms[i].hostPort));
    }
  }

  lemma KeptHits(ip: string, m: PortMapping, accepts: nat -> bool, n: nat, p: Packet)
    requires p.chain == Prerouting
    ensures FirstHit(Kept(MappingRules(ip, m), accepts, n), p) ==
            if p.proto == Proto(m) && p.dport == m.hostPort then Some(Dnat(ip, m.containerPort)) else None
  {
    var rules := MappingRules(ip, m);
    var rest := Kept(rules, accepts, n)[1..];
    assert Kept(rules, accepts, n) == [rules[0]] + rest;
    FirstHitConcat([rules[0]], rest, p);
    NoHit(rest, p);
  }

  lemma {:induction false} NoHit(rules: seq<Rule>, p: Packet)
    requires forall r :: r in rules ==> r.chain != p.chain
    ensures FirstHit(rules, p) == None
  {
    if rules != [] {
      assert rules[0] in rules;
      NoHit(rules[1..], p);
    }
  }

  /** Rules added later never change the fate of a packet that a rule matches already. */
  lemma HitStays(rules: seq<Rule>, ip: string, ms: seq<PortMapping>, accepts: nat -> bool, n: nat, p: Packet)
    requires FirstHit(rules, p).Some?
    ensures FirstHit(Applied(rules, ip, ms, accepts, n).0, p) == FirstHit(rules, p)
  {
    AppliedGrows(rules, ip, ms, accepts, n);
    var after := Applied(rules, ip, ms, accepts, n).0;
    assert after == rules + after[|rules|..];
    FirstHitConcat(rules, after[|rules|..], p);
  }

  /** Removing what was added restores the table, and with it the fate of every packet. */
  lemma RemovalUndoesForwarding(rules: seq<Rule>, ip: string, ms: seq<PortMapping>)
    requires Owned(rules, ip) == []
    ensures DeleteAll(rules + RulesFor(ip, ms), RulesFor(ip, ms)) == rules
  {
    var list := RulesFor(ip, ms);
    RulesServeTheirIP(ip, ms);
    OwnedConcat(rules, list, ip);
    AllOwned(list, ip);
    assert [] + list == list;
    RemovalIsExact(rules + list, ip, ms);
    OthersConcat(rules, list, ip);
    NoneOwned(rules, ip);
    assert rules + [] == rules;
  }

  lemma {:induction false} AllOwned(rules: seq<Rule>, ip: string)
    requires forall r :: r in rules ==> RuleIP(r) == ip
    ensures Owned(rules, ip) == rules && Others(rules, ip) == []
  {
    if rules != [] {
      assert rules[0] in rules;
      AllOwned(rules[1..], ip);
    }
  }

  /** When no other address's rule matches, a packet's fate is decided by the address's own rules. */
  lemma {:induction false} OwnRulesDecide(rules: seq<Rule>, ip: string, p: Packet)
    requires FirstHit(Others(rules, ip), p) == None
    ensures FirstHit(rules, p) == FirstHit(Owned(rules, ip), p)
  {
    if rules != [] {
      var head, tail := rules[0], rules[1..];
      FirstHitConcat(NotServing(head, ip), Others(tail, ip), p);
      FirstHitConcat(Serving(head, ip), Owned(tail, ip), p);
      OwnRulesDecide(tail, ip, p);
    }
  }

  // ---------------------------------------------------------------------------
  // The manager
  // ---------------------------------------------------------------------------

  /** Which steps of a setup fail; `undo` is about the release in its rollback. */
  datatype SetupFaults = SetupFaults(
    bridge: bool, lease: Faults, linkAdd: bool, linkUp: bool, peer: bool, netns: bool, configure: bool, undo: Faults)

  /** One of the steps between the lease and the port forwarding fails. */
  predicate LinkFault(f: SetupFaults) {
    f.linkAdd || f.linkUp || f.peer || f.netns || f.configure
  }

  predicate AnyFault(f: Faults) {
    f.lock || f.load || f.save
  }

  class Manager {
    const ipam: IPAM
    /** Host link name of a container, from a hash of its id. */
    const vethName: string -> string
    var links: set<string>
    var rules: seq<Rule>

    constructor (ipam: IPAM, vethName: string -> string, links: set<string>, rules: seq<Rule>)
      ensures this.ipam == ipam && this.vethName == vethName && this.links == links && this.rules == rules
    {
      this.ipam, this.vethName, this.links, this.rules := ipam, vethName, links, rules;
    }

    /** Runs the four commands of one mapping, numbered from `n`; only the first may stop the call. */
    method AddMapping(ip: string, m: PortMapping, accepts: nat -> bool, n: nat) returns (ok: bool)
      modifies this`rules
      ensures ok <==> Supported(m) && accepts(n)
      ensures ok <==> (Proto(m) == "tcp" || Proto(m) == "udp") && accepts(n)
      ensures ok ==> |rules| == |old(rules)| + 1 + (if accepts(n + 1) then 1 else 0) + (if accepts(n + 2) then 1 else 0)
                                + (if accepts(n + 3) then 1 else 0)
      ensures rules == if ok then old(rules) + Kept(MappingRules(ip, m), accepts, n) else old(rules)
    {
      var proto := ToLower(m.protocol);
      if proto == "" {
        proto := "tcp";
      }
      if proto != "tcp" && proto != "udp" {
        return false;
      }
      var target := Dnat(ip, m.containerPort);
      if !accepts(n) {
        return false;
      }
      rules := rules + [Rule(Prerouting, proto, "", m.hostPort, target)];
      if accepts(n + 1) {
        rules := rules + [Rule(Output, proto, "127.0.0.1", m.hostPort, target)];
      }
      if accepts(n + 2) {
        rules := rules + [Rule(Output, proto, "10.200.0.1", m.hostPort, target)];
      }
      if accepts(n + 3) {
        rules := rules + [Rule(Postrouting, proto, ip, m.containerPort, Masquerade)];
      }
      return true;
    }

    method ApplyPortForwarding(ip: string, ms: seq<PortMapping>, accepts: nat -> bool) returns (ok: bool)
      modifies this`rules
      ensures (rules, ok) == Applied(old(rules), ip, ms, accepts, 0)
      ensures ok ==> forall i, dest ::
                && 0 <= i < |ms|
                && FirstHit(old(rules), Packet(Prerouting, Proto(ms[i]), dest, ms[i].hostPort)) == None
                && (forall j :: 0 <= j < i ==> Proto(ms[j]) != Proto(ms[i]) || ms[j].hostPort != ms[i].hostPort) ==>
                  FirstHit(rules, Packet(Prerouting, Proto(ms[i]), dest, ms[i].hostPort)) == Some(Dnat(ip, ms[i].containerPort))
    {
      for i := 0 to |ms|
        invariant Applied(rules, ip, ms[i..], accepts, 4 * i) == Applied(old(rules), ip, ms, accepts, 0)
      {
        assert ms[i..][1..] == ms[i + 1..];
        ok := AddMapping(ip, ms[i], accepts, 4 * i);
        if !ok {
          return false;
        }
      }
      AllOutsideForwarded(old(rules), ip, ms, accepts);
      return true;
    }

    method RemovePortForwarding(ip: string, ms: seq<PortMapping>)
      modifies this`rules
      ensures rules == DeleteAll(old(rules), RulesFor(ip, ms))
      ensures forall before :: Owned(before, ip) == [] && old(rules) == before + RulesFor(ip, ms) ==> rules == before
    {
      for i := 0 to |ms|
        invariant DeleteAll(rules, RulesFor(ip, ms[i..])) == DeleteAll(old(rules), RulesFor(ip, ms))
      {
        var m := ms[i];
        assert ms[i..][1..] == ms[i + 1..];
        var proto := ToLower(m.protocol);
        if proto == "" {
          proto := "tcp";
        }
        var target := Dnat(ip, m.containerPort);
        DeleteFour(rules, MappingRules(ip, m), RulesFor(ip, ms[i + 1..]));
        rules := Delete(rules, Rule(Prerouting, proto, "", m.hostPort, target));
        rules := Delete(rules, Rule(Output, proto, "127.0.0.1", m.hostPort, target));
        rules := Delete(rules, Rule(Output, proto, "10.200.0.1", m.hostPort, target));
        rules := Delete(rules, Rule(Postrouting, proto, ip, m.containerPort, Masquerade));
      }
      forall before | Owned(before, ip) == [] && old(rules) == before + RulesFor(ip, ms) ensures rules == before {
        RemovalUndoesForwarding(before, ip, ms);
      }
    }

    /** Provisions the network. A failure after the lease gives the lease back and deletes the link, so the
        lease table and the link set are restored exactly when container and link name were new, unless that
        release fails too. */
    method SetupContainerNetwork(id: string, ms: seq<PortMapping>, faults: SetupFaults, accepts: nat -> bool)
      returns (ok: bool, leased: bool)
      modifies this, ipam
      ensures var before := old(ipam.Stored());
              && (leased <==> !faults.bridge && !faults.lease.lock && !faults.lease.load
                              && Allocate(ipam.cfg, before, id).1.Some?
                              && !(Lookup(before, id).None? && faults.lease.save))
              && (!leased ==> !ok && ipam.Stored() == before && links == old(links) && rules == old(rules))
              && (leased ==>
                    var (rules', applied) := Applied(old(rules), Dotted(Allocate(ipam.cfg, before, id).1.value), ms, accepts, 0);
                    && ok == (!LinkFault(faults) && applied)
                    && rules == if LinkFault(faults) then old(rules) else rules')
              && (ok ==>
                    && ipam.Stored() == Allocate(ipam.cfg, before, id).0
                    && links == old(links) + {vethName(id)})
              && (leased && !ok ==>
                    && ipam.Stored() == (if AnyFault(faults.undo) then Allocate(ipam.cfg, before, id).0 else before - {id})
                    && links == old(links) - {vethName(id)}
                    && (ipam.Stored() == before <==> if AnyFault(faults.undo) then Lookup(before, id).Some? else id !in before)
                    && (links == old(links) <==> vethName(id) !in old(links)))
      ensures ok ==> !faults.bridge && !faults.linkAdd && !faults.linkUp && !faults.peer && !faults.netns && !faults.configure
      ensures leased && !ok && !faults.undo.lock && !faults.undo.load && !faults.undo.save ==> id !in ipam.Stored()
    {
      leased := false;
      if faults.bridge {
        return false, false;
      }
      var lease := ipam.AllocateIP(id, faults.lease);
      if lease.Err? {
        return false, false;
      }
      leased := true;
      var name := vethName(id);
      ghost var before := old(ipam.Stored());
      assert id in ipam.Stored() && ipam.Stored() - {id} == before - {id};
      ok := ConfigureLeased(id, name, Dotted(lease.value), ms, faults, accepts);
    }

    /** The steps after the lease, each failure undoing link and lease. */
    method ConfigureLeased(id: string, name: string, ip: string, ms: seq<PortMapping>, faults: SetupFaults,
                           accepts: nat -> bool)
      returns (ok: bool)
      requires id in ipam.Stored()
      modifies this, ipam
      ensures links == if ok then old(links) + {name} else old(links) - {name}
      ensures ipam.Stored() == if ok || AnyFault(faults.undo) then old(ipam.Stored()) else Release(old(ipam.Stored()), id)
      ensures var (rules', applied) := Applied(old(rules), ip, ms, accepts, 0);
              && ok == (!LinkFault(faults) && applied)
              && rules == if LinkFault(faults) then old(rules) else rules'
    {
      if name in links {
        links := links - {name};
      }
      if faults.linkAdd {
        var _ := ipam.ReleaseIP(id, faults.undo);
        return false;
      }
      links := links + {name};
      if faults.linkUp || faults.peer || faults.netns || faults.configure {
        links := links - {name};
        var _ := ipam.ReleaseIP(id, faults.undo);
        return false;
      }
      ok := ApplyPortForwarding(ip, ms, accepts);
      if !ok {
        links := links - {name};
        var _ := ipam.ReleaseIP(id, faults.undo);
      }
    }

    /** Removes the rules while the lease is still held, then releases it and deletes the link. */
    method Cleanup(id: string, ms: seq<PortMapping>, get: Faults, release: Faults)
      modifies this, ipam
      ensures var lease := if get.lock || get.load then None else Lookup(old(ipam.Stored()), id);
              && rules == (if lease.Some? then DeleteAll(old(rules), RulesFor(Dotted(lease.value), ms)) else old(rules))
              && ipam.Stored() ==
                 (if lease.Some? && !AnyFault(release) then Release(old(ipam.Stored()), id) else old(ipam.Stored()))
              && links == old(links) - {vethName(id)}
              && (lease.Some? && !release.lock && !release.load && !release.save ==> id !in ipam.Stored())
    {
      var found := ipam.GetIP(id, get);
      if found.Some? {
        RemovePortForwarding(Dotted(found.value), ms);
        var _ := ipam.ReleaseIP(id, release);
      }
      if vethName(id) in links {
        links := links - {vethName(id)};
      }
    }
  }

  lemma DeleteFour(rules: seq<Rule>, four: seq<Rule>, rest: seq<Rule>)
    requires |four| == 4
    ensures DeleteAll(rules, four + rest) ==
            DeleteAll(Delete(Delete(Delete(Delete(rules, four[0]), four[1]), four[2]), four[3]), rest)
  {
    assert (four + rest)[1..] == four[1..] + rest;
    assert (four[1..] + rest)[1..] == four[2..] + rest;
    assert (four[2..] + rest)[1..] == four[3..] + rest;
    assert (four[3..] + rest)[1..] == rest;
    var one := Delete(rules, four[0]);
    var two := Delete(one, four[1]);
    assert DeleteAll(rules, four + rest) == DeleteAll(one, four[1..] + rest);
    assert DeleteAll(one, four[1..] + rest) == DeleteAll(two, four[2..] + rest);
    assert DeleteAll(two, four[2..] + rest) == DeleteAll(Delete(two, four[2]), four[3..] + rest);
  }
}
