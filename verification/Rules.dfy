/** The part of the nftables virtual machine the repository uses: a register file,
    map lookups and expressions, and the rule programs the repository writes. */
module Rules {
  import opened Wrappers
  import opened Net
  import opened Encoding

  const NFPROTO_IPV4: Byte := 2
  const NFPROTO_IPV6: Byte := 10

  const NFT_REG_1 := 1
  const NFT_REG_2 := 2
  const NFT_REG_3 := 3
  const NFT_REG32_00 := 8
  const NFT_REG32_01 := 9
  const NFT_REG32_02 := 10
  const NFT_REG32_04 := 12
  const NFT_REG32_05 := 13

  /** Sixteen 4-byte words, named singly from NFT_REG32_00 on or in fours from NFT_REG_1 on. */
  type Regs = r: Bytes | |r| == 64 witness seq(64, _ => 0)

  function RegOffset(reg: nat): nat {
    if NFT_REG32_00 <= reg then (reg - NFT_REG32_00) * 4
    else if NFT_REG_1 <= reg then (reg - NFT_REG_1) * 16
    else 64
  }

  datatype SetId = Specific4 | Specific6 | Wildcard4 | Wildcard6

  /** A place in one of the four kernel maps. */
  datatype Slot = Slot(id: SetId, key: Bytes)

  /** The contents of the four kernel maps. */
  type Tables = map<Slot, Bytes>

  function KeyLen(id: SetId): nat {
    match id
    case Specific4 => 12
    case Specific6 => 24
    case Wildcard4 => 8
    case Wildcard6 => 8
  }

  function AddrLen(id: SetId): nat {
    if id.Specific4? || id.Wildcard4? then 4 else 16
  }

  datatype MetaKey = NfProto | L4Proto
  datatype Base = NetworkHeader | TransportHeader

  datatype Expr =
    | Meta(key: MetaKey, reg: nat)
    | Cmp(reg: nat, data: Bytes)
    | Payload(reg: nat, base: Base, offset: nat, len: nat)
    | Lookup(src: nat, id: SetId, reg: nat)
    | Nat(family: Byte, addrReg: nat, portReg: nat)
    | Objref(name: string)

  type Rule = seq<Expr>

  /** A packet as the machine sees it: its family, its transport protocol, and the
      bytes from the network header and from the transport header on. */
  datatype Packet = Packet(nfproto: Byte, l4proto: Byte, net: Bytes, trans: Bytes)

  /** The register file, and the timeout object attached to the flow so far. */
  datatype Cpu = Cpu(regs: Regs, timeoutObj: Option<string>)

  /** How an expression or a rule ends: it goes on, it stops matching, or it
      rewrites the destination, which ends the whole chain. */
  datatype Outcome = Next(cpu: Cpu) | Break(cpu: Cpu) | Rewrite(addr: Bytes, port: Bytes)

  function Load(r: Regs, off: nat, n: nat): (b: Bytes)
    requires off + n <= 64
    ensures |b| == n
  {
    r[off..off + n]
  }

  function Store(r: Regs, off: nat, b: Bytes): (r': Regs)
    requires off + |b| <= 64
    ensures Load(r', off, |b|) == b
  {
    r[..off] + b + r[off + |b|..]
  }

  /** Stores fill the last register word with zeros. */
  function StoreField(c: Cpu, reg: nat, b: Bytes): Outcome {
    var field := AppendConcatField([], b);
    if RegOffset(reg) + |field| <= 64
    then Next(c.(regs := Store(c.regs, RegOffset(reg), field)))
    else Break(c)
  }

  function Header(pkt: Packet, base: Base): Bytes {
    if base.NetworkHeader? then pkt.net else pkt.trans
  }

  /** One expression. Access outside the register file, which the kernel refuses
      when a rule is loaded, stops the match. */
  function ExecExpr(t: Tables, pkt: Packet, e: Expr, c: Cpu): Outcome {
    match e
    case Meta(key, reg) =>
      StoreField(c, reg, [if key.NfProto? then pkt.nfproto else pkt.l4proto])
    case Cmp(reg, data) =>
      if RegOffset(reg) + |data| <= 64 && Load(c.regs, RegOffset(reg), |data|) == data then Next(c) else Break(c)
    case Payload(reg, base, offset, len) =>
      var h := Header(pkt, base);
      if offset + len <= |h| then StoreField(c, reg, h[offset..offset + len]) else Break(c)
    case Lookup(src, id, reg) =>
      if RegOffset(src) + KeyLen(id) > 64 then Break(c)
      else
        var slot := Slot(id, Load(c.regs, RegOffset(src), KeyLen(id)));
        if slot in t && RegOffset(reg) + |t[slot]| <= 64
        then Next(c.(regs := Store(c.regs, RegOffset(reg), t[slot])))
        else Break(c)
    case Nat(family, addrReg, portReg) =>
      var n := if family == NFPROTO_IPV4 then 4 else 16;
      if RegOffset(addrReg) + n <= 64 && RegOffset(portReg) + 2 <= 64
      then Rewrite(Load(c.regs, RegOffset(addrReg), n), Load(c.regs, RegOffset(portReg), 2))
      else Break(c)
    case Objref(name) => Next(c.(timeoutObj := Some(name)))
  }

  function ExecRule(t: Tables, pkt: Packet, rule: Rule, c: Cpu): Outcome {
    if rule == [] then Next(c)
    else
      var o := ExecExpr(t, pkt, rule[0], c);
      if o.Next? then ExecRule(t, pkt, rule[1..], o.cpu) else o
  }

  /** A chain runs its rules in order; registers keep what earlier rules left in them. */
  function ExecChain(t: Tables, pkt: Packet, rules: seq<Rule>, c: Cpu): Outcome {
    if rules == [] then Next(c)
    else
      var o := ExecRule(t, pkt, rules[0], c);
      if o.Rewrite? then o else ExecChain(t, pkt, rules[1..], o.cpu)
  }

  const DPORT_OFFSET := 2
  const DADDR4_OFFSET := 16
  const DADDR6_OFFSET := 24

  const WILDCARD4_RULE: Rule := [
    Meta(NfProto, NFT_REG_1),
    Cmp(NFT_REG_1, [NFPROTO_IPV4]),
    Meta(L4Proto, NFT_REG_1),
    Payload(NFT_REG32_01, TransportHeader, DPORT_OFFSET, 2),
    Lookup(NFT_REG_1, Wildcard4, NFT_REG_1),
    Nat(NFPROTO_IPV4, NFT_REG_1, NFT_REG32_01)]

  const WILDCARD6_RULE: Rule := [
    Meta(NfProto, NFT_REG_1),
    Cmp(NFT_REG_1, [NFPROTO_IPV6]),
    Meta(L4Proto, NFT_REG_1),
    Payload(NFT_REG32_01, TransportHeader, DPORT_OFFSET, 2),
    Lookup(NFT_REG_1, Wildcard6, NFT_REG_1),
    Nat(NFPROTO_IPV6, NFT_REG_1, NFT_REG32_04)]

  const SPECIFIC4_RULE: Rule := [
    Meta(NfProto, NFT_REG_1),
    Cmp(NFT_REG_1, [NFPROTO_IPV4]),
    Meta(L4Proto, NFT_REG_1),
    Payload(NFT_REG32_01, NetworkHeader, DADDR4_OFFSET, 4),
    Payload(NFT_REG32_02, TransportHeader, DPORT_OFFSET, 2),
    Lookup(NFT_REG_1, Specific4, NFT_REG_1),
    Nat(NFPROTO_IPV4, NFT_REG_1, NFT_REG32_01)]

  const SPECIFIC6_RULE: Rule := [
    Meta(NfProto, NFT_REG32_00),
    Cmp(NFT_REG32_00, [NFPROTO_IPV6]),
    Meta(L4Proto, NFT_REG32_00),
    Payload(NFT_REG32_01, NetworkHeader, DADDR6_OFFSET, 16),
    Payload(NFT_REG32_05, TransportHeader, DPORT_OFFSET, 2),
    Lookup(NFT_REG32_00, Specific6, NFT_REG_1),
    Nat(NFPROTO_IPV6, NFT_REG_1, NFT_REG32_04)]

  /** The prerouting chain, in the order the rules are queued. */
  const DNAT_RULES: seq<Rule> := [WILDCARD4_RULE, WILDCARD6_RULE, SPECIFIC4_RULE, SPECIFIC6_RULE]

  /** The rule that attaches a timeout object to the packets of one source. An
      address that is neither IPv4 nor IPv6 leaves the rule without expressions. */
  function DefineTimeoutRule(l4Protocol: Byte, addr: AddrPort, timeoutObj: string): Rule {
    if addr.addr.Is6() && !addr.addr.IsUnspecified() then [
      Meta(L4Proto, NFT_REG_1),
      Cmp(NFT_REG_1, [l4Protocol]),
      Meta(NfProto, NFT_REG_1),
      Cmp(NFT_REG_1, [NFPROTO_IPV6]),
      Payload(NFT_REG_2, NetworkHeader, DADDR6_OFFSET, 16),
      Cmp(NFT_REG_2, addr.addr.AsSlice()),
      Payload(NFT_REG_3, TransportHeader, DPORT_OFFSET, 2),
      Cmp(NFT_REG_3, EncodePort(addr.port)),
      Objref(timeoutObj)]
    else if addr.addr.Is6() then [
      Meta(L4Proto, NFT_REG_1),
      Cmp(NFT_REG_1, [l4Protocol]),
      Meta(NfProto, NFT_REG_1),
      Cmp(NFT_REG_1, [NFPROTO_IPV6]),
      Payload(NFT_REG_2, TransportHeader, DPORT_OFFSET, 2),
      Cmp(NFT_REG_2, EncodePort(addr.port)),
      Objref(timeoutObj)]
    else if addr.addr.Is4() && !addr.addr.IsUnspecified() then [
      Meta(L4Proto, NFT_REG_1),
      Cmp(NFT_REG_1, [l4Protocol]),
      Meta(NfProto, NFT_REG_1),
      Cmp(NFT_REG_1, [NFPROTO_IPV4]),
      Payload(NFT_REG_2, NetworkHeader, DADDR4_OFFSET, 4),
      Cmp(NFT_REG_2, addr.addr.AsSlice()),
      Payload(NFT_REG_3, TransportHeader, DPORT_OFFSET, 2),
      Cmp(NFT_REG_3, EncodePort(addr.port)),
      Objref(timeoutObj)]
    else if addr.addr.Is4() then [
      Meta(L4Proto, NFT_REG_1),
      Cmp(NFT_REG_1, [l4Protocol]),
      Meta(NfProto, NFT_REG_1),
      Cmp(NFT_REG_1, [NFPROTO_IPV4]),
      Payload(NFT_REG_2, TransportHeader, DPORT_OFFSET, 2),
      Cmp(NFT_REG_2, EncodePort(addr.port)),
      Objref(timeoutObj)]
    else []
  }
}
