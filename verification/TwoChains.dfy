/** The two chains together. The timeouts chain sits at the input hook: it sees each packet as the
    prerouting chain has left it, and only those that are then delivered to this host. */
module TwoChains {
  import opened Net
  import opened Mappings
  import opened Encoding
  import opened Rules
  import opened Routing
  import opened Kernel
  import opened Plane
  import opened PlaneProofs
  import opened PlaneOps
  import opened PlaneRuns
  import opened PlaneLeaks

  function DaddrOffset(pkt: Packet): nat {
    if pkt.nfproto == NFPROTO_IPV4 then DADDR4_OFFSET else DADDR6_OFFSET
  }

  /** The packet with its destination address and port replaced. */
  function Translate(pkt: Packet, addr: Bytes, port: Bytes): Packet
    requires DaddrOffset(pkt) + |addr| <= |pkt.net| && DPORT_OFFSET + |port| <= |pkt.trans|
  {
    var off := DaddrOffset(pkt);
    pkt.(net := pkt.net[..off] + addr + pkt.net[off + |addr|..],
         trans := pkt.trans[..DPORT_OFFSET] + port + pkt.trans[DPORT_OFFSET + |port|..])
  }

  /** The packet is of the family of this address. */
  predicate SameFamily(pkt: Packet, a: Addr) {
    (a.Is4() && pkt.nfproto == NFPROTO_IPV4) || (a.Is6() && pkt.nfproto == NFPROTO_IPV6)
  }

  /** A translated packet is addressed to what it was translated to. */
  lemma TranslatedTarget(pkt: Packet, a: AddrPort)
    requires WellFormed(pkt) && SameFamily(pkt, a.addr) && a.addr.Zone() == ""
    ensures DaddrOffset(pkt) + |a.addr.AsSlice()| <= |pkt.net|
    ensures var pkt' := Translate(pkt, a.addr.AsSlice(), EncodePort(a.port));
            WellFormed(pkt') && TargetOf(pkt') == Target(pkt.l4proto, a)
  {
    var off, addr, port := DaddrOffset(pkt), a.addr.AsSlice(), EncodePort(a.port);
    var pkt' := Translate(pkt, addr, port);
    Parts(pkt.net[..off], addr, pkt.net[off + |addr|..]);
    Parts(pkt.trans[..DPORT_OFFSET], port, pkt.trans[DPORT_OFFSET + 2..]);
    PortRoundTrip(a.port, port);
    hide EncodePort, DecodePort;
    assert pkt'.net[off..off + |addr|] == addr && DportBytes(pkt') == port;
  }

  /** The packet after the prerouting chain. */
  function Prerouted(pkt: Packet, out: Outcome): Packet {
    if out.Rewrite? && DaddrOffset(pkt) + |out.addr| <= |pkt.net| && DPORT_OFFSET + |out.port| <= |pkt.trans|
    then Translate(pkt, out.addr, out.port) else pkt
  }

  /** A packet meets a timeout rule if it is addressed to this host, whose addresses are `local`, and
      the rule goes through; a packet for another host passes the forward hook instead. */
  predicate MeetsTimeout(t: Tables, local: set<Addr>, pkt: Packet, x: Mapping, obj: string, c: Cpu)
    requires WellFormed(pkt)
  {
    Daddr(pkt) in local && ExecRule(t, pkt, DefineTimeoutRule(x.protocol, x.source, obj), c).Next?
  }

  lemma ForwardedPacket(pkt: Packet, a: AddrPort)
    requires WellFormed(pkt) && SameFamily(pkt, a.addr) && a.addr.Zone() == ""
    ensures var pkt' := Prerouted(pkt, RewriteTo(a)); WellFormed(pkt') && TargetOf(pkt') == Target(pkt.l4proto, a)
  {
    TranslatedTarget(pkt, a);
  }

  lemma CoveredFamily(m: Mapping, pkt: Packet)
    requires Validate(m) && WellFormed(pkt) && Covers(m, TargetOf(pkt))
    ensures SameFamily(pkt, m.destination.addr) && m.destination.addr.Zone() == "" && pkt.l4proto == m.protocol
  {
  }

  /** In every state that a clean run reaches, a packet that an enabled mapping `m` covers meets the timeout
      rule of a registered mapping exactly when the destination of `m` is an address of this host and
      the source of that mapping is a wildcard of the destination's family, protocol and port. */
  lemma ForwardedTimeouts(o: Oracle, p: PlaneState, ops: seq<Op>, pkt: Packet, local: set<Addr>, m: Mapping,
                          x: Mapping, obj: string, c: Cpu, c': Cpu)
    requires Initial(p) && IsRun(o, p, ops) && CleanRun(o, p, ops) && WellFormed(pkt)
    requires var q := Run(o, p, ops); m in Live(q) && x in All(q)
    requires Covers(m, TargetOf(pkt))
    ensures var q := Run(o, p, ops);
            var pkt' := Prerouted(pkt, ExecChain(q.kernel.tables, pkt, DNAT_RULES, c));
            && WellFormed(pkt') && TargetOf(pkt') == Target(m.protocol, m.destination)
            && (MeetsTimeout(q.kernel.tables, local, pkt', x, obj, c') <==>
                  && m.destination.addr in local && x.source.addr.IsUnspecified() && x.protocol == m.protocol
                  && x.source.addr.Is4() == m.destination.addr.Is4() && x.source.port == m.destination.port)
  {
    hide Run, Inv, Live, All, Covers, WellFormed, TargetOf, ExecRule, ExecChain, DefineTimeoutRule, Translate;
    hide IsRun, CleanRun, Validate, Overlaps, Prerouted, Daddr;
    var q := Run(o, p, ops);
    RegisteredConsistent(o, p, ops);
    QueuedOrder();
    GatewayRoutes(o, p, ops, pkt, c, QUEUED_ORDER);
    assert Validate(m) && Validate(x);
    CoveredFamily(m, pkt);
    ForwardedPacket(pkt, m.destination);
    var pkt' := Prerouted(pkt, RewriteTo(m.destination));
    TargetIsDaddr(pkt');
    OneTimeoutRule(o, p, ops, pkt', x, x, obj, obj, c', c');
    DestinationCovered(All(q), m, x);
  }

  lemma TargetIsDaddr(pkt: Packet)
    requires WellFormed(pkt)
    ensures TargetOf(pkt).endpoint.addr == Daddr(pkt)
  {
  }

  lemma RegisteredConsistent(o: Oracle, p: PlaneState, ops: seq<Op>)
    requires Initial(p) && IsRun(o, p, ops)
    ensures Consistent(All(Run(o, p, ops))) && Live(Run(o, p, ops)) <= All(Run(o, p, ops))
  {
    RunKeeps(o, p, ops);
    LiveConsistent(Run(o, p, ops));
  }

  /** Only a wildcard source covers another mapping's destination. */
  lemma DestinationCovered(ms: iset<Mapping>, m: Mapping, x: Mapping)
    requires Consistent(ms) && m in ms && x in ms
    ensures Covers(x, Target(m.protocol, m.destination)) <==>
            && x.source.addr.IsUnspecified() && x.protocol == m.protocol
            && x.source.addr.Is4() == m.destination.addr.Is4() && x.source.port == m.destination.port
  {
    if x.protocol == m.protocol {
      RoutingOneToOne(ms, x, m);
    }
  }

  /** So what a mapping forwards to another host meets no timeout rule at all, and what it forwards to this
      host meets its own rule exactly when its source is a wildcard with the destination's port. */
  lemma OwnRuleMissesForwarded(o: Oracle, p: PlaneState, ops: seq<Op>, pkt: Packet, local: set<Addr>, m: Mapping,
                               obj: string, c: Cpu, c': Cpu)
    requires Initial(p) && IsRun(o, p, ops) && CleanRun(o, p, ops) && WellFormed(pkt)
    requires m in Live(Run(o, p, ops)) && Covers(m, TargetOf(pkt))
    ensures var q := Run(o, p, ops);
            var pkt' := Prerouted(pkt, ExecChain(q.kernel.tables, pkt, DNAT_RULES, c));
            && WellFormed(pkt')
            && (m.destination.addr !in local ==>
                  forall x :: x in All(q) ==> !MeetsTimeout(q.kernel.tables, local, pkt', x, obj, c'))
            && (MeetsTimeout(q.kernel.tables, local, pkt', m, obj, c') <==>
                  m.destination.addr in local && m.source.addr.IsUnspecified() && m.source.port == m.destination.port)
  {
    RegisteredConsistent(o, p, ops);
    var q := Run(o, p, ops);
    assert Validate(m);
    hide Run, All, Live, Covers, TargetOf, Prerouted, ExecChain, MeetsTimeout, Validate, WellFormed, IsRun, CleanRun;
    ForwardedTimeouts(o, p, ops, pkt, local, m, m, obj, c, c');
    forall x | x in All(q) && m.destination.addr !in local
      ensures !MeetsTimeout(q.kernel.tables, local, Prerouted(pkt, ExecChain(q.kernel.tables, pkt, DNAT_RULES, c)),
                            x, obj, c')
    {
      ForwardedTimeouts(o, p, ops, pkt, local, m, x, obj, c, c');
    }
    assert m.source.addr.Is4() == m.destination.addr.Is4() by { FamilyOfDestination(m); }
  }

  lemma FamilyOfDestination(m: Mapping)
    requires Validate(m)
    ensures m.source.addr.Is4() == m.destination.addr.Is4()
  {
  }

  /** A run that shows it: one mapping with a specific source and a timeout is added and enabled, and
      then no packet that it forwards meets its rule, wherever the destination is. */
  lemma MissedTimeoutReached(o: Oracle, p: PlaneState, m: Mapping, ops: seq<Op>, pkt: Packet, local: set<Addr>,
                             obj: string, c: Cpu, c': Cpu)
    requires Initial(p) && Validate(m) && m.timeout != 0 && !m.source.addr.IsUnspecified()
    requires o(p.clock) == FlushOk && o(p.clock + 1) == FlushOk
    requires ops == [OpNew("g"), OpAdd("g", [m]), OpEnable("g", [m])]
    requires WellFormed(pkt) && Covers(m, TargetOf(pkt))
    ensures IsRun(o, p, ops) && m in Live(Run(o, p, ops))
    ensures var groups := Run(o, p, ops).groups; "g" in groups && SrcKey(m) in groups["g"].flow
    ensures var t := Run(o, p, ops).kernel.tables;
            var pkt' := Prerouted(pkt, ExecChain(t, pkt, DNAT_RULES, c));
            WellFormed(pkt') && !MeetsTimeout(t, local, pkt', m, obj, c')
  {
    hide Validate, SlotOf, WellFormed, Covers, TargetOf, Prerouted, ExecChain, MeetsTimeout, Enumerates, Owns, Run;
    EnableAlone(o, p, m);
    RunOfThree(o, p, OpNew("g"), OpAdd("g", [m]), OpEnable("g", [m]));
    OwnRuleMissesForwarded(o, p, ops, pkt, local, m, obj, c, c');
  }
}
