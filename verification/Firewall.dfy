/** From reservations to the host firewall: every sync sends the complete set of
    mappings, and the privileged side rewrites the whole rule set from it. */
module Firewall {
  import opened Common
  import opened Ports

  /** The protocol of a rule; a reservation for both stands for one rule of each. */
  datatype Wire = TcpWire | UdpWire

  datatype Mapping = Mapping(external: int, internal: int, wire: Wire, ip: string)

  datatype Rule = Rule(wire: Wire, dport: int, ip: string, port: int)

  function Expand(p: Protocol): seq<Wire> {
    match p
    case Tcp => [TcpWire]
    case Udp => [UdpWire]
    case Both => [TcpWire, UdpWire]
  }

  /** What a reservation covers, whatever rules are made of it. */
  predicate Covers(p: Protocol, wire: Wire) {
    match wire
    case TcpWire => p == Tcp || p == Both
    case UdpWire => p == Udp || p == Both
  }

  lemma ExpandIsCovers(p: Protocol, wire: Wire)
    ensures wire in Expand(p) <==> Covers(p, wire)
  {
  }

  const PREFIX := "10.42.0."

  function WorkspaceIp(idx: nat): string {
    PREFIX + Decimal(idx + 10)
  }

  /** Two slots never share an address. */
  lemma {:induction false} AddressIsSlot(a: nat, b: nat)
    requires WorkspaceIp(a) == WorkspaceIp(b)
    ensures a == b
  {
    assert WorkspaceIp(a)[|PREFIX|..] == Decimal(a + 10);
    assert WorkspaceIp(b)[|PREFIX|..] == Decimal(b + 10);
    DecimalInjective(a + 10, b + 10);
  }

  /** The address is the bridge's prefix and ten more than the slot, in digits. */
  lemma {:induction false} AddressSpelledOut(idx: nat)
    ensures |WorkspaceIp(idx)| > 8 && WorkspaceIp(idx)[..8] == "10.42.0."
    ensures Parse(WorkspaceIp(idx)[8..]) == idx + 10
  {
    DecimalParses(idx + 10);
    assert WorkspaceIp(idx)[8..] == Decimal(idx + 10);
  }

  // ------------------------------------------------------------- the privileged side

  predicate BridgeAddress(ip: string) {
    && PREFIX <= ip
    && 1 <= |ip| - |PREFIX| <= 3
    && forall i :: |PREFIX| <= i < |ip| ==> '0' <= ip[i] <= '9'
  }

  predicate ValidMapping(m: Mapping) {
    RANGE_START <= m.external <= RANGE_END && 1 <= m.internal <= 65535 && BridgeAddress(m.ip)
  }

  /** Which mappings the privileged side accepts, in figures. */
  lemma {:induction false} ValidMappingIff(m: Mapping)
    ensures ValidMapping(m) <==>
      && 20000 <= m.external <= 29999 && 1 <= m.internal <= 65535
      && exists digits :: m.ip == "10.42.0." + digits && 1 <= |digits| <= 3
                          && forall i :: 0 <= i < |digits| ==> '0' <= digits[i] <= '9'
  {
    if BridgeAddress(m.ip) {
      assert m.ip == "10.42.0." + m.ip[8..];
    }
  }

  predicate AllValid(ms: seq<Mapping>) {
    forall i :: 0 <= i < |ms| ==> ValidMapping(ms[i])
  }

  function RulesOf(ms: seq<Mapping>): seq<Rule> {
    seq(|ms|, i requires 0 <= i < |ms| => Rule(ms[i].wire, ms[i].external, ms[i].ip, ms[i].internal))
  }

  /** How loading the rule file ends: it takes effect, it is refused and nothing
      changes, or it takes effect while the caller sees a failure. */
  datatype Load = Applied | NotApplied | LostReply

  class Nftables {
    // The two chains: traffic arriving on the uplink, and traffic of the host itself.
    var prerouting: seq<Rule>
    var output: seq<Rule>

    constructor ()
      ensures prerouting == [] && output == []
    {
      prerouting, output := [], [];
    }

    /** Rewrite the published-port rules to exactly `mappings`. */
    method SyncPortRules(mappings: seq<Mapping>, load: Load) returns (ok: bool)
      modifies this
      ensures ok <==> AllValid(mappings) && load == Applied
      ensures prerouting == After(old(prerouting), mappings, load)
      ensures output == After(old(output), mappings, load)
    {
      var pre: seq<Rule>, out: seq<Rule> := [], [];
      for i := 0 to |mappings|
        invariant AllValid(mappings[..i])
        invariant pre == out == RulesOf(mappings[..i])
        invariant unchanged(this)
      {
        var m := mappings[i];
        if !(RANGE_START <= m.external <= RANGE_END) || !(1 <= m.internal <= 65535) || !BridgeAddress(m.ip) {
          assert !ValidMapping(mappings[i]);
          return false;
        }
        pre := pre + [Rule(m.wire, m.external, m.ip, m.internal)];
        out := out + [Rule(m.wire, m.external, m.ip, m.internal)];
      }
      assert mappings[..|mappings|] == mappings;
      if load != NotApplied {
        prerouting, output := pre, out;
      }
      ok := load == Applied;
    }
  }

  function After(rules: seq<Rule>, ms: seq<Mapping>, load: Load): seq<Rule> {
    if AllValid(ms) && load != NotApplied then RulesOf(ms) else rules
  }

  predicate Synced(ms: seq<Mapping>, load: Load) {
    AllValid(ms) && load == Applied
  }

  /** Where the kernel sends a packet: the first rule that matches it. */
  function Route(rules: seq<Rule>, wire: Wire, dport: int): Option<(string, int)> {
    if rules == [] then None
    else if rules[0].wire == wire && rules[0].dport == dport then Some((rules[0].ip, rules[0].port))
    else Route(rules[1..], wire, dport)
  }

  // ----------------------------------------------------------------- the control plane

  /** `slots` gives each workspace its slot number. */
  function MappingsOfPort(p: Port, slots: map<int, nat>, wires: seq<Wire>): seq<Mapping>
    requires p.workspace in slots
  {
    seq(|wires|, i requires 0 <= i < |wires| =>
      Mapping(p.external, p.internal, wires[i], WorkspaceIp(slots[p.workspace])))
  }

  /** What a sync sends: the join of ports and workspaces, less what it excludes. */
  function MappingsOf(ports: seq<Port>, slots: map<int, nat>, noWorkspace: Option<int>, noPort: Option<Port>): seq<Mapping> {
    if ports == [] then []
    else
      var before := MappingsOf(ports[..|ports| - 1], slots, noWorkspace, noPort);
      var p := ports[|ports| - 1];
      if p.workspace !in slots || noWorkspace == Some(p.workspace) || noPort == Some(p) then before
      else before + MappingsOfPort(p, slots, Expand(p.protocol))
  }

  /** The rule `r` stands for the reservation `p`. */
  predicate Serves(r: Rule, p: Port, slots: map<int, nat>) {
    && p.workspace in slots
    && r.dport == p.external && r.port == p.internal
    && Covers(p.protocol, r.wire)
    && r.ip == WorkspaceIp(slots[p.workspace])
  }

  predicate Kept(p: Port, noWorkspace: Option<int>, noPort: Option<Port>) {
    noWorkspace != Some(p.workspace) && noPort != Some(p)
  }

  /** A sync's rules are exactly the expanded reservations it was not told to leave out. */
  lemma {:induction false} RulesAreReservations(
    ports: seq<Port>, slots: map<int, nat>, noWorkspace: Option<int>, noPort: Option<Port>, r: Rule)
    ensures r in RulesOf(MappingsOf(ports, slots, noWorkspace, noPort))
       <==> exists p :: p in ports && Kept(p, noWorkspace, noPort) && Serves(r, p, slots)
  {
    if ports != [] {
      var front, last := ports[..|ports| - 1], ports[|ports| - 1];
      RulesAreReservations(front, slots, noWorkspace, noPort, r);
      assert ports == front + [last];
      var before := MappingsOf(front, slots, noWorkspace, noPort);
      if last.workspace in slots && Kept(last, noWorkspace, noPort) {
        var added := MappingsOfPort(last, slots, Expand(last.protocol));
        RulesConcat(before, added);
        PortRules(last, slots, r);
      }
    }
  }

  lemma RulesConcat(a: seq<Mapping>, b: seq<Mapping>)
    ensures RulesOf(a + b) == RulesOf(a) + RulesOf(b)
  {
  }

  lemma {:induction false} PortRules(p: Port, slots: map<int, nat>, r: Rule)
    requires p.workspace in slots
    ensures r in RulesOf(MappingsOfPort(p, slots, Expand(p.protocol))) <==> Serves(r, p, slots)
  {
    var wires := Expand(p.protocol);
    var rules := RulesOf(MappingsOfPort(p, slots, wires));
    ExpandIsCovers(p.protocol, TcpWire);
    ExpandIsCovers(p.protocol, UdpWire);
    if Serves(r, p, slots) {
      var i :| 0 <= i < |wires| && wires[i] == r.wire;
      assert rules[i] == r;
    }
  }

  // ------------------------------------------------------------------------ routing

  lemma {:induction false} RouteIsARule(rules: seq<Rule>, wire: Wire, dport: int)
    ensures Route(rules, wire, dport).Some? ==>
      Rule(wire, dport, Route(rules, wire, dport).value.0, Route(rules, wire, dport).value.1) in rules
    ensures Route(rules, wire, dport).None? ==>
      forall r :: r in rules ==> !(r.wire == wire && r.dport == dport)
  {
    if rules != [] {
      RouteIsARule(rules[1..], wire, dport);
      assert rules == [rules[0]] + rules[1..];
    }
  }

  lemma {:induction false} ExternalIdentifies(ports: seq<Port>, p: Port, q: Port)
    requires DistinctExternals(ports) && p in ports && q in ports && p.external == q.external
    ensures p == q
  {
    var i :| 0 <= i < |ports| && ports[i] == p;
    var j :| 0 <= j < |ports| && ports[j] == q;
  }

  predicate DistinctSlots(slots: map<int, nat>) {
    forall a, b :: a in slots && b in slots && a != b ==> slots[a] != slots[b]
  }

  predicate Reserves(p: Port, wire: Wire, dport: int, slots: map<int, nat>) {
    p.external == dport && Covers(p.protocol, wire) && p.workspace in slots
  }

  /** After a successful full sync a packet for (port, protocol) is forwarded exactly
      when some reservation covers it, and then to that reservation's owner and port. */
  lemma {:induction false} SyncedRoutesToOwner(
    ports: seq<Port>, slots: map<int, nat>, before: seq<Rule>, wire: Wire, dport: int)
    requires DistinctExternals(ports)
    requires Synced(MappingsOf(ports, slots, None, None), Applied)
    ensures var rules := After(before, MappingsOf(ports, slots, None, None), Applied);
            && (Route(rules, wire, dport).Some? <==> exists p :: p in ports && Reserves(p, wire, dport, slots))
            && (forall p :: p in ports && Reserves(p, wire, dport, slots) ==>
                  Route(rules, wire, dport) == Some((WorkspaceIp(slots[p.workspace]), p.internal)))
  {
    var rules := RulesOf(MappingsOf(ports, slots, None, None));
    RouteIsARule(rules, wire, dport);
    var route := Route(rules, wire, dport);
    if route.Some? {
      var r := Rule(wire, dport, route.value.0, route.value.1);
      RulesAreReservations(ports, slots, None, None, r);
      var q :| q in ports && Serves(r, q, slots);
      assert Reserves(q, wire, dport, slots);
      forall p | p in ports && Reserves(p, wire, dport, slots) ensures p == q {
        ExternalIdentifies(ports, p, q);
      }
    } else {
      forall p | p in ports && Reserves(p, wire, dport, slots) ensures false {
        var r := Rule(wire, dport, WorkspaceIp(slots[p.workspace]), p.internal);
        assert Kept(p, None, None) && Serves(r, p, slots);
        RulesAreReservations(ports, slots, None, None, r);
      }
    }
  }

  /** The address a packet is forwarded to belongs to one workspace only. */
  lemma {:induction false} RoutedAddressHasOneOwner(slots: map<int, nat>, a: int, b: int)
    requires DistinctSlots(slots) && a in slots && b in slots
    requires WorkspaceIp(slots[a]) == WorkspaceIp(slots[b])
    ensures a == b
  {
    AddressIsSlot(slots[a], slots[b]);
  }

  // ------------------------------------------------------------------ valid mappings

  lemma {:induction false} DecimalIsShort(n: nat)
    requires n <= 999
    ensures 1 <= |Decimal(n)| <= 3
  {
    if n >= 10 {
      assert |Decimal(n)| == |Decimal(n / 10)| + 1;
    }
  }

  lemma {:induction false} AddressIsOnTheBridge(idx: nat)
    requires idx <= 989
    ensures BridgeAddress(WorkspaceIp(idx))
  {
    var digits := Decimal(idx + 10);
    DecimalIsShort(idx + 10);
    DecimalParses(idx + 10);
    var ip := PREFIX + digits;
    assert forall i :: |PREFIX| <= i < |ip| ==> ip[i] == digits[i - |PREFIX|];
  }

  /** A reservation that the privileged side will accept. */
  predicate ValidRow(p: Port, slots: map<int, nat>) {
    && RANGE_START <= p.external <= RANGE_END && 1 <= p.internal <= 65535
    && (p.workspace in slots ==> slots[p.workspace] <= 989)
  }

  /** Whatever a sync leaves out, valid reservations make it a valid one. */
  lemma {:induction false} ValidRowsMakeAValidSync(
    ports: seq<Port>, slots: map<int, nat>, noWorkspace: Option<int>, noPort: Option<Port>)
    requires forall i :: 0 <= i < |ports| ==> ValidRow(ports[i], slots)
    ensures AllValid(MappingsOf(ports, slots, noWorkspace, noPort))
  {
    hide ValidMapping;
    if ports != [] {
      var front, last := ports[..|ports| - 1], ports[|ports| - 1];
      assert forall i :: 0 <= i < |front| ==> front[i] == ports[i];
      ValidRowsMakeAValidSync(front, slots, noWorkspace, noPort);
      if last.workspace in slots {
        assert ValidRow(last, slots);
        PortIsValid(last, slots, Expand(last.protocol));
        ValidConcat(MappingsOf(front, slots, noWorkspace, noPort), MappingsOfPort(last, slots, Expand(last.protocol)));
      }
    }
  }

  lemma {:induction false} PortIsValid(p: Port, slots: map<int, nat>, wires: seq<Wire>)
    requires p.workspace in slots && ValidRow(p, slots)
    ensures AllValid(MappingsOfPort(p, slots, wires))
  {
    AddressIsOnTheBridge(slots[p.workspace]);
  }

  lemma ValidConcat(a: seq<Mapping>, b: seq<Mapping>)
    requires AllValid(a) && AllValid(b)
    ensures AllValid(a + b)
  {
    hide ValidMapping;
  }
}
