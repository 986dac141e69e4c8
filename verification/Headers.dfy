/** Packets written out field by field, and the gateway's results about their destination address
    and destination port fields. Nothing here takes an offset or a number from the rules. */
module Headers {
  import opened Wrappers
  import opened Net
  import opened Mappings
  import opened Encoding
  import opened Rules
  import opened Routing
  import opened Kernel
  import opened Plane
  import opened PlaneProofs
  import opened PlaneRuns
  import opened TwoChains

  type Word16 = w: int | 0 <= w < 0x1_0000

  /** Big-endian. */
  function U16(w: Word16): (b: Bytes)
    ensures |b| == 2
  {
    [w / 256, w % 256]
  }

  /** The internet headers of section 3.1 of RFC 791 and section 3 of RFC 8200. */
  datatype Network =
    | Ip4(versionAndLength: Byte, service: Byte, totalLength: Word16, identification: Word16, fragment: Word16,
          timeToLive: Byte, checksum: Word16, source4: Bytes4, destination4: Bytes4, options: Bytes)
    | Ip6(versionClassFlow: Bytes4, payloadLength: Word16, hopLimit: Byte, source6: Bytes16, destination6: Bytes16)

  /** The transport headers of section 3.1 of RFC 9293 and the Format section of RFC 768. */
  datatype Transport =
    | Tcp(tcpSource: Word16, tcpDestination: Word16, sequence: Bytes4, acknowledgment: Bytes4, remainder: Bytes)
    | Udp(udpSource: Word16, udpDestination: Word16, length: Word16, udpChecksum: Word16, data: Bytes)

  function NetworkBytes(n: Network, protocol: Byte): Bytes {
    match n
    case Ip4(v, service, len, id, frag, ttl, sum, src, dst, options) =>
      [v, service] + U16(len) + U16(id) + U16(frag) + [ttl, protocol] + U16(sum) + src + dst + options
    case Ip6(v, len, hops, src, dst) =>
      v + U16(len) + [protocol, hops] + src + dst
  }

  function TransportBytes(tr: Transport): Bytes {
    match tr
    case Tcp(src, dst, s, a, rest) => U16(src) + U16(dst) + s + a + rest
    case Udp(src, dst, len, sum, data) => U16(src) + U16(dst) + U16(len) + U16(sum) + data
  }

  /** The assigned protocol numbers. */
  function Number(tr: Transport): Byte {
    match tr
    case Tcp(_, _, _, _, _) => 6
    case Udp(_, _, _, _, _) => 17
  }

  function DestinationPort(tr: Transport): Word16 {
    match tr
    case Tcp(_, dst, _, _, _) => dst
    case Udp(_, dst, _, _, _) => dst
  }

  function DestinationAddr(n: Network): Addr {
    match n
    case Ip4(_, _, _, _, _, _, _, _, dst, _) => V4(dst)
    case Ip6(_, _, _, _, dst) => V6(dst, "")
  }

  /** A packet on its way through the kernel, which numbers the families 2 and 10. */
  function Wire(n: Network, tr: Transport): Packet {
    Packet(if n.Ip4? then 2 else 10, Number(tr), NetworkBytes(n, Number(tr)) + TransportBytes(tr), TransportBytes(tr))
  }

  /** The packet is addressed to the source of this mapping, in terms of its fields. */
  predicate AddressedTo(n: Network, tr: Transport, m: Mapping) {
    && (if tr.Tcp? then m.protocol == 6 else m.protocol == 17)
    && m.source.port == DestinationPort(tr)
    && match n
       case Ip4(_, _, _, _, _, _, _, _, dst, _) =>
         m.source.addr == V4(dst) || m.source.addr == V4([0, 0, 0, 0])
       case Ip6(_, _, _, _, dst) =>
         m.source.addr == V6(dst, "") || m.source.addr == V6([0, 0, 0, 0, 0, 0, 0, 0, 0, 0, 0, 0, 0, 0, 0, 0], "")
  }

  // What the machine reads of such a packet

  lemma TransportPort(tr: Transport, port: Bytes)
    requires port == U16(DestinationPort(tr))
    ensures |TransportBytes(tr)| >= 4 && TransportBytes(tr)[2..4] == port
    ensures DecodePort(port) == DestinationPort(tr)
  {
  }

  lemma NetworkDestination(n: Network, protocol: Byte, more: Bytes)
    ensures var b := NetworkBytes(n, protocol) + more;
            match n
            case Ip4(_, _, _, _, _, _, _, _, dst, _) => |b| >= 20 && b[16..20] == dst
            case Ip6(_, _, _, _, dst) => |b| >= 40 && b[24..40] == dst
  {
    match n
    case Ip4(v, service, len, id, frag, ttl, sum, src, dst, options) =>
      var front := [v, service] + U16(len) + U16(id) + U16(frag) + [ttl, protocol] + U16(sum) + src;
      assert |front| == 16;
      assert NetworkBytes(n, protocol) + more == front + dst + (options + more);
      Parts(front, dst, options + more);
    case Ip6(v, len, hops, src, dst) =>
      var front := v + U16(len) + [protocol, hops] + src;
      assert |front| == 24;
      assert NetworkBytes(n, protocol) + more == front + dst + more;
      Parts(front, dst, more);
  }

  /** The target of a packet is its destination address field with its destination port field. */
  lemma WireTarget(n: Network, tr: Transport)
    ensures WellFormed(Wire(n, tr))
    ensures TargetOf(Wire(n, tr)) == Target(Number(tr), AddrPort(DestinationAddr(n), DestinationPort(tr)))
  {
    TransportPort(tr, U16(DestinationPort(tr)));
    NetworkDestination(n, Number(tr), TransportBytes(tr));
    hide NetworkBytes, TransportBytes, U16, DecodePort;
  }

  lemma WireCovers(n: Network, tr: Transport, m: Mapping)
    ensures Covers(m, Target(Number(tr), AddrPort(DestinationAddr(n), DestinationPort(tr)))) <==> AddressedTo(n, tr, m)
  {
  }

  // The gateway on such packets

  /** The rewrite to this destination: its address bytes and its big-endian port. */
  predicate RewritesTo(out: Outcome, a: AddrPort) {
    && out.Rewrite? && out.port == U16(a.port)
    && match a.addr
       case V4(b) => out.addr == b
       case V6(b, _) => out.addr == b
       case NoAddr => false
  }

  lemma RewriteFields(a: AddrPort)
    requires a.addr.IsValid()
    ensures RewritesTo(RewriteTo(a), a)
  {
  }

  /** After every clean run, a packet whose destination fields an enabled mapping's source stands for is
      rewritten to that mapping's destination, and every other TCP or UDP packet passes. */
  lemma GatewayRoutesFields(o: Oracle, p: PlaneState, ops: seq<Op>, n: Network, tr: Transport, c: Cpu, ids: seq<SetId>)
    requires Initial(p) && IsRun(o, p, ops) && CleanRun(o, p, ops) && forall id: SetId :: id in ids
    ensures var q := Run(o, p, ops);
            && WellFormed(Wire(n, tr))
            && (forall m :: m in Live(q) && AddressedTo(n, tr, m) ==>
                  RewritesTo(ExecChain(q.kernel.tables, Wire(n, tr), RulesInOrder(ids), c), m.destination))
            && ((forall m :: m in Live(q) ==> !AddressedTo(n, tr, m)) ==>
                  ExecChain(q.kernel.tables, Wire(n, tr), RulesInOrder(ids), c).Next?)
            && (!q.closed ==>
                  && (forall m :: m in Live(q) && AddressedTo(n, tr, m) ==>
                        RewritesTo(ExecChain(q.kernel.tables, Wire(n, tr), q.kernel.chain, c), m.destination))
                  && ((forall m :: m in Live(q) ==> !AddressedTo(n, tr, m)) ==>
                        ExecChain(q.kernel.tables, Wire(n, tr), q.kernel.chain, c).Next?))
  {
    var q, pkt := Run(o, p, ops), Wire(n, tr);
    WireTarget(n, tr);
    RegisteredConsistent(o, p, ops);
    QueuedOrder();
    hide Run, Live, All, Covers, AddressedTo, TargetOf, Wire, ExecChain, RewriteTo, RewritesTo, Validate, Overlaps;
    hide IsRun, CleanRun, WellFormed;
    GatewayRoutes(o, p, ops, pkt, c, ids);
    GatewayRoutes(o, p, ops, pkt, c, QUEUED_ORDER);
    forall m | m in Live(q)
      ensures Covers(m, TargetOf(pkt)) <==> AddressedTo(n, tr, m)
      ensures RewritesTo(RewriteTo(m.destination), m.destination)
    {
      WireCovers(n, tr, m);
      ValidDestination(m);
      RewriteFields(m.destination);
    }
  }

  lemma ValidDestination(m: Mapping)
    ensures Validate(m) ==> m.destination.addr.IsValid()
  {
  }

  /** In every reachable state the timeout rule of a registered mapping goes through on a packet exactly when
      the mapping's source stands for the packet's destination fields. */
  lemma TimeoutRuleFields(o: Oracle, p: PlaneState, ops: seq<Op>, n: Network, tr: Transport, m: Mapping, obj: string,
                          c: Cpu)
    requires Initial(p) && IsRun(o, p, ops) && m in All(Run(o, p, ops))
    ensures ExecRule(Run(o, p, ops).kernel.tables, Wire(n, tr), DefineTimeoutRule(m.protocol, m.source, obj), c).Next?
       <==> AddressedTo(n, tr, m)
  {
    WireTarget(n, tr);
    WireCovers(n, tr, m);
    OneTimeoutRule(o, p, ops, Wire(n, tr), m, m, obj, obj, c, c);
  }

  // Translation

  function WithDestination(n: Network, addr: Bytes): Network
    requires |addr| == if n.Ip4? then 4 else 16
  {
    match n
    case Ip4(_, _, _, _, _, _, _, _, _, _) => n.(destination4 := addr)
    case Ip6(_, _, _, _, _) => n.(destination6 := addr)
  }

  function WithPort(tr: Transport, port: Word16): Transport {
    match tr
    case Tcp(_, _, _, _, _) => tr.(tcpDestination := port)
    case Udp(_, _, _, _, _) => tr.(udpDestination := port)
  }

  /** Translation changes the destination address and destination port fields and nothing else of either
      header. The network header is followed by the transport header as it was when it was read. */
  lemma TranslatedFields(n: Network, tr: Transport, addr: Bytes, port: Word16)
    requires |addr| == if n.Ip4? then 4 else 16
    ensures var pkt := Wire(n, tr);
            && DaddrOffset(pkt) + |addr| <= |pkt.net| && DPORT_OFFSET + 2 <= |pkt.trans|
            && var pkt' := Translate(pkt, addr, U16(port));
               && pkt'.nfproto == pkt.nfproto && pkt'.l4proto == pkt.l4proto
               && pkt'.net == NetworkBytes(WithDestination(n, addr), Number(tr)) + TransportBytes(tr)
               && pkt'.trans == TransportBytes(WithPort(tr, port))
  {
    TranslatedNetwork(n, tr, addr);
    TranslatedTransport(tr, port);
  }

  lemma TranslatedNetwork(n: Network, tr: Transport, addr: Bytes)
    requires |addr| == if n.Ip4? then 4 else 16
    ensures var off := DaddrOffset(Wire(n, tr));
            var b := NetworkBytes(n, Number(tr)) + TransportBytes(tr);
            && off + |addr| <= |b|
            && b[..off] + addr + b[off + |addr|..]
               == NetworkBytes(WithDestination(n, addr), Number(tr)) + TransportBytes(tr)
  {
    var more, protocol := TransportBytes(tr), Number(tr);
    hide TransportBytes, Number;
    match n
    case Ip4(v, service, len, id, frag, ttl, sum, src, dst, options) =>
      var front := [v, service] + U16(len) + U16(id) + U16(frag) + [ttl, protocol] + U16(sum) + src;
      assert |front| == 16;
      Swap(front, dst, options + more, addr);
      assert NetworkBytes(n, protocol) + more == front + dst + (options + more);
      assert NetworkBytes(WithDestination(n, addr), protocol) + more == front + addr + (options + more);
    case Ip6(v, len, hops, src, dst) =>
      var front := v + U16(len) + [protocol, hops] + src;
      assert |front| == 24;
      Swap(front, dst, more, addr);
      assert NetworkBytes(n, protocol) + more == front + dst + more;
      assert NetworkBytes(WithDestination(n, addr), protocol) + more == front + addr + more;
  }

  lemma TranslatedTransport(tr: Transport, port: Word16)
    ensures var b := TransportBytes(tr);
            && DPORT_OFFSET + 2 <= |b|
            && b[..DPORT_OFFSET] + U16(port) + b[DPORT_OFFSET + 2..] == TransportBytes(WithPort(tr, port))
  {
    hide U16;
    match tr
    case Tcp(src, dst, s, a, rest) => SwapPort(U16(src), U16(dst), s, a, rest, U16(port));
    case Udp(src, dst, len, sum, data) => SwapPort(U16(src), U16(dst), U16(len), U16(sum), data, U16(port));
  }

  lemma SwapPort(src: Bytes, dst: Bytes, x: Bytes, y: Bytes, z: Bytes, port: Bytes)
    requires |src| == 2 && |dst| == 2 && |port| == 2
    ensures var b := src + dst + x + y + z;
            |b| >= 4 && b[..2] + port + b[4..] == src + port + x + y + z
  {
    assert src + dst + x + y + z == src + dst + (x + y + z);
    Swap(src, dst, x + y + z, port);
    assert src + port + x + y + z == src + port + (x + y + z);
  }

  lemma Swap(front: Bytes, was: Bytes, back: Bytes, now: Bytes)
    requires |was| == |now|
    ensures var b := front + was + back;
            b[..|front|] + now + b[|front| + |now|..] == front + now + back
  {
    Parts(front, was, back);
  }
}
