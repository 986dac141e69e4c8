/** The compiled form means what the mappings mean: the prerouting chain and the
    timeout rules, run over the register file, agree with `Mappings.Covers`. */
module Routing {
  import opened Wrappers
  import opened Net
  import opened Mappings
  import opened Encoding
  import opened Rules

  /** The set a mapping's element goes to. */
  function SetOf(source: AddrPort): SetId {
    if source.addr.Is6() then if source.addr.IsUnspecified() then Wildcard6 else Specific6
    else if source.addr.IsUnspecified() then Wildcard4 else Specific4
  }

  function SlotOf(m: Mapping): Slot {
    Slot(SetOf(m.source), CompileSetElement(m).key)
  }

  /** `t` holds the compilation of the mappings in `ms`, and nothing else. */
  ghost predicate Implements(t: Tables, ms: iset<Mapping>) {
    && (forall m :: m in ms ==> SlotOf(m) in t && t[SlotOf(m)] == EncodeMapValue(m.destination))
    && (forall s :: s in t ==> exists m :: m in ms && SlotOf(m) == s)
  }

  /** The compiled form is determined by the mappings. */
  lemma ImplementsUnique(t: Tables, t': Tables, ms: iset<Mapping>)
    requires Implements(t, ms) && Implements(t', ms)
    ensures t == t'
  {
    forall s ensures s in t <==> s in t' {
    }
    forall s | s in t ensures t[s] == t'[s] {
      var m :| m in ms && SlotOf(m) == s;
    }
  }

  /** Mappings that do not conflict never compete for a slot. */
  lemma SlotCollisionOverlaps(m: Mapping, x: Mapping)
    requires Validate(m) && Validate(x) && SlotOf(m) == SlotOf(x)
    ensures m.protocol == x.protocol && m.source == x.source && Overlaps(m, x)
  {
    if m.source.addr.IsUnspecified() {
      WildcardKeyInjective(m.protocol, m.source.port, x.protocol, x.source.port);
    } else {
      SpecificKeyInjective(m.protocol, m.source, x.protocol, x.source);
    }
  }

  /** The family of a set's keys. */
  function Family(id: SetId): Byte {
    if id.Specific4? || id.Wildcard4? then NFPROTO_IPV4 else NFPROTO_IPV6
  }

  predicate IsWildcard(id: SetId) { id.Wildcard4? || id.Wildcard6? }

  /** Both headers are present up to the fields that matter here: the destination
      address (section 3.1 of RFC 791, section 3 of RFC 8200) and the destination
      port (section 3.1 of RFC 9293, Format section of RFC 768). */
  predicate WellFormed(pkt: Packet) {
    && |pkt.trans| >= DPORT_OFFSET + 2
    && (pkt.nfproto == NFPROTO_IPV4 ==> |pkt.net| >= DADDR4_OFFSET + 4)
    && (pkt.nfproto == NFPROTO_IPV6 ==> |pkt.net| >= DADDR6_OFFSET + 16)
  }

  /** The destination address of a packet, read from its network header. */
  function Daddr(pkt: Packet): Addr
    requires WellFormed(pkt)
  {
    if pkt.nfproto == NFPROTO_IPV4 then V4(pkt.net[DADDR4_OFFSET..DADDR4_OFFSET + 4])
    else if pkt.nfproto == NFPROTO_IPV6 then V6(pkt.net[DADDR6_OFFSET..DADDR6_OFFSET + 16], "")
    else NoAddr
  }

  function DportBytes(pkt: Packet): (b: Bytes)
    requires WellFormed(pkt)
    ensures |b| == 2
  {
    pkt.trans[DPORT_OFFSET..DPORT_OFFSET + 2]
  }

  /** What the packet is addressed to. */
  function TargetOf(pkt: Packet): Target
    requires WellFormed(pkt)
  {
    Target(pkt.l4proto, AddrPort(Daddr(pkt), DecodePort(DportBytes(pkt))))
  }

  /** The key under which a packet of the right family is looked up in set `id`. */
  function LookupKey(id: SetId, pkt: Packet): Bytes
    requires WellFormed(pkt) && pkt.nfproto == Family(id)
  {
    if IsWildcard(id) then [pkt.l4proto, 0, 0, 0] + (DportBytes(pkt) + [0, 0])
    else [pkt.l4proto, 0, 0, 0] + Daddr(pkt).AsSlice() + (DportBytes(pkt) + [0, 0])
  }

  /** The kernel keeps the value length of every map. */
  predicate Sized(t: Tables) {
    forall s :: s in t ==> |t[s]| == AddrLen(s.id) + 4
  }

  lemma LoadSplit(r: Regs, off: nat, n: nat, k: nat)
    requires off + n + k <= 64
    ensures Load(r, off, n + k) == Load(r, off, n) + Load(r, off + n, k)
  {
  }

  lemma LoadFrame(r: Regs, off: nat, b: Bytes, at: nat, n: nat)
    requires off + |b| <= 64 && at + n <= 64
    requires at + n <= off || off + |b| <= at
    ensures Load(Store(r, off, b), at, n) == Load(r, at, n)
  {
  }

  lemma ExecCons(t: Tables, pkt: Packet, e: Expr, rest: Rule, c: Cpu)
    ensures ExecRule(t, pkt, [e] + rest, c) ==
            var o := ExecExpr(t, pkt, e, c);
            if o.Next? then ExecRule(t, pkt, rest, o.cpu) else o
  {
    assert ([e] + rest)[1..] == rest;
  }

  function RuleFor(id: SetId): Rule {
    match id
    case Wildcard4 => WILDCARD4_RULE
    case Wildcard6 => WILDCARD6_RULE
    case Specific4 => SPECIFIC4_RULE
    case Specific6 => SPECIFIC6_RULE
  }

  /** The last two expressions of every rule: look the key at register 0 up and
      rewrite to the value found. */
  lemma LookupAndNat(t: Tables, pkt: Packet, id: SetId, src: nat, c: Cpu)
    requires Sized(t) && RegOffset(src) == 0
    ensures var slot := Slot(id, Load(c.regs, 0, KeyLen(id)));
            var portReg := if AddrLen(id) == 4 then NFT_REG32_01 else NFT_REG32_04;
            var o := ExecRule(t, pkt, [Lookup(src, id, NFT_REG_1), Nat(Family(id), NFT_REG_1, portReg)], c);
            if slot in t then o == Rewrite(t[slot][..AddrLen(id)], t[slot][AddrLen(id)..AddrLen(id) + 2])
            else o.Break?
  {
    var n := AddrLen(id);
    var portReg := if n == 4 then NFT_REG32_01 else NFT_REG32_04;
    var rewrite := Nat(Family(id), NFT_REG_1, portReg);
    ExecCons(t, pkt, Lookup(src, id, NFT_REG_1), [rewrite], c);
    assert [Lookup(src, id, NFT_REG_1)] + [rewrite] == [Lookup(src, id, NFT_REG_1), rewrite];
    var slot := Slot(id, Load(c.regs, 0, KeyLen(id)));
    if slot in t {
      var v := t[slot];
      var c' := c.(regs := Store(c.regs, 0, v));
      ExecCons(t, pkt, rewrite, [], c');
      assert [rewrite] + [] == [rewrite];
      assert Load(c'.regs, 0, n + 4) == v;
      LoadSplit(c'.regs, 0, n, 4);
      LoadSplit(c'.regs, n, 2, 2);
      assert v[..n] == Load(c'.regs, 0, n);
      assert v[n..n + 2] == Load(c'.regs, n, 2);
    }
  }

  /** A stored field: its own bytes first, then zeros up to a full word. */
  lemma StoredField(r: Regs, off: nat, x: Bytes)
    requires off + |AppendConcatField([], x)| <= 64
    ensures var field := AppendConcatField([], x);
            && Load(Store(r, off, field), off, |field|) == field
            && off + |x| <= 64 && Load(Store(r, off, field), off, |x|) == x
  {
    hide AppendConcatField;
    FieldLayout([], x);
    var field := AppendConcatField([], x);
    LoadSplit(Store(r, off, field), off, |x|, |field| - |x|);
    assert Load(Store(r, off, field), off, |x|) == field[..|x|];
  }

  lemma ExecMeta(t: Tables, pkt: Packet, key: MetaKey, reg: nat, rest: Rule, c: Cpu) returns (c': Cpu)
    requires RegOffset(reg) <= 60
    ensures c'.timeoutObj == c.timeoutObj
    ensures var x := if key.NfProto? then pkt.nfproto else pkt.l4proto;
            && Load(c'.regs, RegOffset(reg), 4) == [x, 0, 0, 0]
            && Load(c'.regs, RegOffset(reg), 1) == [x]
    ensures ExecRule(t, pkt, [Meta(key, reg)] + rest, c) == ExecRule(t, pkt, rest, c')
  {
    hide AppendConcatField, ExecRule, Load, Store;
    var x := if key.NfProto? then pkt.nfproto else pkt.l4proto;
    ExecCons(t, pkt, Meta(key, reg), rest, c);
    FieldLayout([], [x]);
    assert AppendConcatField([], [x]) == [x, 0, 0, 0];
    StoredField(c.regs, RegOffset(reg), [x]);
    c' := c.(regs := Store(c.regs, RegOffset(reg), [x, 0, 0, 0]));
  }

  lemma ExecCmp(t: Tables, pkt: Packet, reg: nat, data: Bytes, rest: Rule, c: Cpu)
    requires RegOffset(reg) + |data| <= 64
    ensures ExecRule(t, pkt, [Cmp(reg, data)] + rest, c) ==
            if Load(c.regs, RegOffset(reg), |data|) == data then ExecRule(t, pkt, rest, c) else Break(c)
  {
    hide ExecRule, Load;
    ExecCons(t, pkt, Cmp(reg, data), rest, c);
  }

  /** The first three expressions of every rule: check the family, then leave the
      transport protocol, padded, in the first register word. */
  lemma FamilyGuard(t: Tables, pkt: Packet, fam: Byte, reg: nat, rest: Rule, c: Cpu) returns (c': Cpu)
    requires RegOffset(reg) == 0
    ensures pkt.nfproto == fam ==> Load(c'.regs, 0, 4) == [pkt.l4proto, 0, 0, 0]
    ensures var o := ExecRule(t, pkt, [Meta(NfProto, reg), Cmp(reg, [fam]), Meta(L4Proto, reg)] + rest, c);
            if pkt.nfproto == fam then o == ExecRule(t, pkt, rest, c') else o.Break?
  {
    hide ExecRule, Load;
    var r1 := [Meta(L4Proto, reg)] + rest;
    var r2 := [Cmp(reg, [fam])] + r1;
    assert [Meta(NfProto, reg), Cmp(reg, [fam]), Meta(L4Proto, reg)] + rest == [Meta(NfProto, reg)] + r2;
    var c1 := ExecMeta(t, pkt, NfProto, reg, r2, c);
    ExecCmp(t, pkt, reg, [fam], r1, c1);
    assert [pkt.nfproto] == [fam] <==> pkt.nfproto == fam by {
      assert [pkt.nfproto][0] == pkt.nfproto && [fam][0] == fam;
    }
    c' := ExecMeta(t, pkt, L4Proto, reg, rest, c1);
  }

  /** A store right after the first `off` bytes extends what is loaded from there. */
  lemma StoreExtends(r: Regs, off: nat, b: Bytes)
    requires off + |b| <= 64
    ensures Load(Store(r, off, b), 0, off + |b|) == Load(r, 0, off) + b
  {
    LoadSplit(Store(r, off, b), 0, off, |b|);
    LoadFrame(r, off, b, 0, off);
  }

  /** A payload load appends its padded field to the key built so far. */
  lemma PayloadExtendsKey(t: Tables, pkt: Packet, reg: nat, base: Base, offset: nat, len: nat, rest: Rule, c: Cpu,
                          field: Bytes)
    returns (c': Cpu)
    requires offset + len <= |Header(pkt, base)|
    requires field == AppendConcatField([], Header(pkt, base)[offset..offset + len])
    requires RegOffset(reg) + |field| <= 64
    ensures Load(c'.regs, 0, RegOffset(reg) + |field|) == Load(c.regs, 0, RegOffset(reg)) + field
    ensures ExecRule(t, pkt, [Payload(reg, base, offset, len)] + rest, c) == ExecRule(t, pkt, rest, c')
  {
    hide ExecRule, Load, Store, AppendConcatField;
    ExecCons(t, pkt, Payload(reg, base, offset, len), rest, c);
    c' := c.(regs := Store(c.regs, RegOffset(reg), field));
    StoreExtends(c.regs, RegOffset(reg), field);
  }

  lemma PortField(pkt: Packet, field: Bytes)
    requires WellFormed(pkt) && field == AppendConcatField([], pkt.trans[DPORT_OFFSET..DPORT_OFFSET + 2])
    ensures field == DportBytes(pkt) + [0, 0]
  {
    FieldLayout([], pkt.trans[DPORT_OFFSET..DPORT_OFFSET + 2]);
  }

  lemma WildcardRuleEffect(t: Tables, pkt: Packet, id: SetId, c: Cpu)
    requires Sized(t) && WellFormed(pkt) && IsWildcard(id)
    ensures var o := ExecRule(t, pkt, RuleFor(id), c);
            if pkt.nfproto == Family(id) && Slot(id, LookupKey(id, pkt)) in t then
              var v := t[Slot(id, LookupKey(id, pkt))];
              o == Rewrite(v[..AddrLen(id)], v[AddrLen(id)..AddrLen(id) + 2])
            else o.Break?
  {
    var fam := Family(id);
    var portReg := if AddrLen(id) == 4 then NFT_REG32_01 else NFT_REG32_04;
    var tail := [Lookup(NFT_REG_1, id, NFT_REG_1), Nat(fam, NFT_REG_1, portReg)];
    var rest := [Payload(NFT_REG32_01, TransportHeader, DPORT_OFFSET, 2)] + tail;
    assert RuleFor(id) == [Meta(NfProto, NFT_REG_1), Cmp(NFT_REG_1, [fam]), Meta(L4Proto, NFT_REG_1)] + rest;
    var c1 := FamilyGuard(t, pkt, fam, NFT_REG_1, rest, c);
    if pkt.nfproto == fam {
      var field := AppendConcatField([], pkt.trans[DPORT_OFFSET..DPORT_OFFSET + 2]);
      PortField(pkt, field);
      var c2 := PayloadExtendsKey(t, pkt, NFT_REG32_01, TransportHeader, DPORT_OFFSET, 2, tail, c1, field);
      assert Load(c2.regs, 0, KeyLen(id)) == LookupKey(id, pkt);
      LookupAndNat(t, pkt, id, NFT_REG_1, c2);
    }
  }

  lemma SpecificRuleEffect(t: Tables, pkt: Packet, id: SetId, c: Cpu)
    requires Sized(t) && WellFormed(pkt) && !IsWildcard(id)
    ensures var o := ExecRule(t, pkt, RuleFor(id), c);
            if pkt.nfproto == Family(id) && Slot(id, LookupKey(id, pkt)) in t then
              var v := t[Slot(id, LookupKey(id, pkt))];
              o == Rewrite(v[..AddrLen(id)], v[AddrLen(id)..AddrLen(id) + 2])
            else o.Break?
  {
    hide ExecRule, Load, AppendConcatField;
    var fam, n := Family(id), AddrLen(id);
    var reg := if n == 4 then NFT_REG_1 else NFT_REG32_00;
    var portReg := if n == 4 then NFT_REG32_01 else NFT_REG32_04;
    var offset := if n == 4 then DADDR4_OFFSET else DADDR6_OFFSET;
    var reg2 := if n == 4 then NFT_REG32_02 else NFT_REG32_05;
    var tail := [Lookup(reg, id, NFT_REG_1), Nat(fam, NFT_REG_1, portReg)];
    var rest2 := [Payload(reg2, TransportHeader, DPORT_OFFSET, 2)] + tail;
    var rest1 := [Payload(NFT_REG32_01, NetworkHeader, offset, n)] + rest2;
    assert RuleFor(id) == [Meta(NfProto, reg), Cmp(reg, [fam]), Meta(L4Proto, reg)] + rest1;
    var c1 := FamilyGuard(t, pkt, fam, reg, rest1, c);
    if pkt.nfproto == fam {
      var daddr := AppendConcatField([], pkt.net[offset..offset + n]);
      FieldLayout([], pkt.net[offset..offset + n]);
      assert daddr == Daddr(pkt).AsSlice();
      var c2 := PayloadExtendsKey(t, pkt, NFT_REG32_01, NetworkHeader, offset, n, rest2, c1, daddr);
      var field := AppendConcatField([], pkt.trans[DPORT_OFFSET..DPORT_OFFSET + 2]);
      PortField(pkt, field);
      var c3 := PayloadExtendsKey(t, pkt, reg2, TransportHeader, DPORT_OFFSET, 2, tail, c2, field);
      assert Load(c3.regs, 0, KeyLen(id)) == LookupKey(id, pkt);
      LookupAndNat(t, pkt, id, reg, c3);
    }
  }

  /** One DNAT rule: it rewrites to the value stored under the packet's key in the
      rule's set, whatever the registers held before, and otherwise breaks. */
  lemma RuleEffect(t: Tables, pkt: Packet, id: SetId, c: Cpu)
    requires Sized(t) && WellFormed(pkt)
    ensures var o := ExecRule(t, pkt, RuleFor(id), c);
            if pkt.nfproto == Family(id) && Slot(id, LookupKey(id, pkt)) in t then
              var v := t[Slot(id, LookupKey(id, pkt))];
              o == Rewrite(v[..AddrLen(id)], v[AddrLen(id)..AddrLen(id) + 2])
            else o.Break?
  {
    if IsWildcard(id) {
      WildcardRuleEffect(t, pkt, id, c);
    } else {
      SpecificRuleEffect(t, pkt, id, c);
    }
  }

  /** A source and a packet meet at a key exactly when the source covers the packet. */
  lemma KeyMeetsTarget(m: Mapping, pkt: Packet)
    requires Validate(m) && WellFormed(pkt)
    ensures (pkt.nfproto == Family(SetOf(m.source)) && CompileSetElement(m).key == LookupKey(SetOf(m.source), pkt))
       <==> Covers(m, TargetOf(pkt))
  {
    var id := SetOf(m.source);
    var port := DecodePort(DportBytes(pkt));
    var there := AddrPort(Daddr(pkt), port);
    PortRoundTrip(port, DportBytes(pkt));
    Layout(pkt.l4proto, there);
    if pkt.nfproto == Family(id) {
      if IsWildcard(id) {
        assert LookupKey(id, pkt) == EncodeWildcardKey(pkt.l4proto, port);
        if CompileSetElement(m).key == LookupKey(id, pkt) {
          WildcardKeyInjective(m.protocol, m.source.port, pkt.l4proto, port);
        }
      } else {
        assert LookupKey(id, pkt) == EncodeSpecificKey(pkt.l4proto, there);
        if CompileSetElement(m).key == LookupKey(id, pkt) {
          SpecificKeyInjective(m.protocol, m.source, pkt.l4proto, there);
        }
      }
    }
  }

  lemma ImplementsSized(t: Tables, ms: iset<Mapping>)
    requires Consistent(ms) && Implements(t, ms)
    ensures Sized(t)
  {
    forall s | s in t ensures |t[s]| == AddrLen(s.id) + 4 {
      var m :| m in ms && SlotOf(m) == s;
      ValueIsRewrite(m);
    }
  }

  /** Set `id` holds an element for this packet. */
  predicate Hit(t: Tables, pkt: Packet, id: SetId)
    requires WellFormed(pkt)
  {
    pkt.nfproto == Family(id) && Slot(id, LookupKey(id, pkt)) in t
  }

  /** A hit is the element of a member that covers the packet, and such a member hits. */
  lemma HitsAreCovers(t: Tables, ms: iset<Mapping>, pkt: Packet, id: SetId, m: Mapping)
    requires Consistent(ms) && Implements(t, ms) && WellFormed(pkt)
    ensures m in ms && SetOf(m.source) == id && Covers(m, TargetOf(pkt)) ==>
              Hit(t, pkt, id) && t[Slot(id, LookupKey(id, pkt))] == EncodeMapValue(m.destination)
    ensures Hit(t, pkt, id) ==> exists x :: x in ms && SetOf(x.source) == id && Covers(x, TargetOf(pkt))
  {
    if m in ms {
      KeyMeetsTarget(m, pkt);
    }
    if Hit(t, pkt, id) {
      var x :| x in ms && SlotOf(x) == Slot(id, LookupKey(id, pkt));
      KeyMeetsTarget(x, pkt);
    }
  }

  function RulesInOrder(ids: seq<SetId>): seq<Rule> {
    if ids == [] then [] else [RuleFor(ids[0])] + RulesInOrder(ids[1..])
  }

  /** How a chain rewrites a packet to an endpoint. */
  function RewriteTo(a: AddrPort): Outcome {
    Rewrite(a.addr.AsSlice(), EncodePort(a.port))
  }

  lemma ChainCons(t: Tables, pkt: Packet, ids: seq<SetId>, c: Cpu)
    requires ids != []
    ensures var o := ExecRule(t, pkt, RuleFor(ids[0]), c);
            ExecChain(t, pkt, RulesInOrder(ids), c) ==
            if o.Rewrite? then o else ExecChain(t, pkt, RulesInOrder(ids[1..]), o.cpu)
  {
    assert RulesInOrder(ids)[1..] == RulesInOrder(ids[1..]);
  }

  lemma ValueIsRewrite(m: Mapping)
    requires Validate(m)
    ensures var v, n := EncodeMapValue(m.destination), AddrLen(SetOf(m.source));
            |v| == n + 4 && Rewrite(v[..n], v[n..n + 2]) == RewriteTo(m.destination)
  {
    hide EncodeMapValue, EncodePort;
    Layout(m.protocol, m.destination);
    Parts(m.destination.addr.AsSlice(), EncodePort(m.destination.port), [0, 0]);
    var v := EncodeMapValue(m.destination);
    assert v == m.destination.addr.AsSlice() + EncodePort(m.destination.port) + [0, 0];
  }

  lemma {:induction false} ChainFinds(t: Tables, ms: iset<Mapping>, pkt: Packet, ids: seq<SetId>, c: Cpu, m: Mapping)
    requires Consistent(ms) && Implements(t, ms) && WellFormed(pkt)
    requires m in ms && Covers(m, TargetOf(pkt)) && SetOf(m.source) in ids
    ensures ExecChain(t, pkt, RulesInOrder(ids), c) == RewriteTo(m.destination)
  {
    hide ExecRule, ExecChain, RuleFor, RulesInOrder, Implements, SlotOf, LookupKey, EncodeMapValue, EncodePort;
    hide Validate, Covers, TargetOf;
    var id := ids[0];
    ImplementsSized(t, ms);
    ChainCons(t, pkt, ids, c);
    RuleEffect(t, pkt, id, c);
    HitsAreCovers(t, ms, pkt, id, m);
    if Hit(t, pkt, id) {
      var x :| x in ms && SetOf(x.source) == id && Covers(x, TargetOf(pkt));
      RoutingIsFunction(ms, m, x, TargetOf(pkt));
      ValueIsRewrite(m);
    } else {
      ChainFinds(t, ms, pkt, ids[1..], ExecRule(t, pkt, RuleFor(id), c).cpu, m);
    }
  }

  lemma {:induction false} ChainPasses(t: Tables, ms: iset<Mapping>, pkt: Packet, ids: seq<SetId>, c: Cpu)
    requires Consistent(ms) && Implements(t, ms) && WellFormed(pkt)
    requires forall m :: m in ms ==> !Covers(m, TargetOf(pkt))
    ensures ExecChain(t, pkt, RulesInOrder(ids), c).Next?
  {
    if ids == [] {
    } else {
      ImplementsSized(t, ms);
      RuleEffect(t, pkt, ids[0], c);
      ChainCons(t, pkt, ids, c);
      if Hit(t, pkt, ids[0]) {
        var m :| m in ms && SlotOf(m) == Slot(ids[0], LookupKey(ids[0], pkt));
        HitsAreCovers(t, ms, pkt, ids[0], m);
      }
      ChainPasses(t, ms, pkt, ids[1..], ExecRule(t, pkt, RuleFor(ids[0]), c).cpu);
    }
  }

  /** The four rules, in any order and from any register contents, rewrite a packet
      to the destination of the one mapping that covers it, and let it pass unchanged
      when no mapping does. */
  lemma ChainRoutes(t: Tables, ms: iset<Mapping>, pkt: Packet, ids: seq<SetId>, c: Cpu)
    requires Consistent(ms) && Implements(t, ms) && WellFormed(pkt)
    requires forall id: SetId :: id in ids
    ensures forall m :: m in ms && Covers(m, TargetOf(pkt)) ==>
              ExecChain(t, pkt, RulesInOrder(ids), c) == RewriteTo(m.destination)
    ensures (forall m :: m in ms ==> !Covers(m, TargetOf(pkt))) ==> ExecChain(t, pkt, RulesInOrder(ids), c).Next?
  {
    forall m | m in ms && Covers(m, TargetOf(pkt))
      ensures ExecChain(t, pkt, RulesInOrder(ids), c) == RewriteTo(m.destination)
    {
      ChainFinds(t, ms, pkt, ids, c, m);
    }
    if forall m :: m in ms ==> !Covers(m, TargetOf(pkt)) {
      ChainPasses(t, ms, pkt, ids, c);
    }
  }

  const QUEUED_ORDER := [Wildcard4, Wildcard6, Specific4, Specific6]

  /** The queued order is one of those orders. */
  lemma QueuedOrder()
    ensures DNAT_RULES == RulesInOrder(QUEUED_ORDER)
    ensures forall id: SetId :: id in QUEUED_ORDER
  {
    var ids := QUEUED_ORDER;
    forall id: SetId ensures id in ids {
      match id
      case Wildcard4 => assert ids[0] == id;
      case Wildcard6 => assert ids[1] == id;
      case Specific4 => assert ids[2] == id;
      case Specific6 => assert ids[3] == id;
    }
    assert ids[1..] == [Wildcard6, Specific4, Specific6];
    assert ids[1..][1..] == [Specific4, Specific6];
    assert ids[1..][1..][1..] == [Specific6];
    assert ids[1..][1..][1..][1..] == [];
  }

  // Timeout rules

  lemma CompareMeta(t: Tables, pkt: Packet, key: MetaKey, reg: nat, v: Byte, rest: Rule, c: Cpu) returns (c': Cpu)
    requires RegOffset(reg) <= 60
    ensures c'.timeoutObj == c.timeoutObj
    ensures var o := ExecRule(t, pkt, [Meta(key, reg), Cmp(reg, [v])] + rest, c);
            if (if key.NfProto? then pkt.nfproto else pkt.l4proto) == v then o == ExecRule(t, pkt, rest, c')
            else o == Break(c')
  {
    hide ExecRule, Load;
    assert [Meta(key, reg), Cmp(reg, [v])] + rest == [Meta(key, reg)] + ([Cmp(reg, [v])] + rest);
    c' := ExecMeta(t, pkt, key, reg, [Cmp(reg, [v])] + rest, c);
    ExecCmp(t, pkt, reg, [v], rest, c');
    assert [pkt.nfproto][0] == pkt.nfproto && [pkt.l4proto][0] == pkt.l4proto && [v][0] == v;
  }

  lemma ComparePayload(t: Tables, pkt: Packet, reg: nat, base: Base, offset: nat, data: Bytes, rest: Rule, c: Cpu)
    returns (c': Cpu)
    requires offset + |data| <= |Header(pkt, base)|
    requires RegOffset(reg) + |data| + 3 <= 64
    ensures c'.timeoutObj == c.timeoutObj
    ensures var o := ExecRule(t, pkt, [Payload(reg, base, offset, |data|), Cmp(reg, data)] + rest, c);
            if Header(pkt, base)[offset..offset + |data|] == data then o == ExecRule(t, pkt, rest, c')
            else o == Break(c')
  {
    hide ExecRule, Load, Store, AppendConcatField;
    var x := Header(pkt, base)[offset..offset + |data|];
    var load := Payload(reg, base, offset, |data|);
    assert [load, Cmp(reg, data)] + rest == [load] + ([Cmp(reg, data)] + rest);
    ExecCons(t, pkt, load, [Cmp(reg, data)] + rest, c);
    FieldLayout([], x);
    StoredField(c.regs, RegOffset(reg), x);
    c' := c.(regs := Store(c.regs, RegOffset(reg), AppendConcatField([], x)));
    ExecCmp(t, pkt, reg, data, rest, c');
  }

  /** The timeout rule of a source goes through exactly on the packets whose DNAT
      lookup key is the source's compiled key, and only then attaches its object. */
  lemma TimeoutRuleMatches(t: Tables, pkt: Packet, m: Mapping, obj: string, c: Cpu)
    requires Validate(m) && WellFormed(pkt)
    ensures var o := ExecRule(t, pkt, DefineTimeoutRule(m.protocol, m.source, obj), c);
            if pkt.nfproto == Family(SetOf(m.source)) && CompileSetElement(m).key == LookupKey(SetOf(m.source), pkt)
            then o.Next? && o.cpu.timeoutObj == Some(obj)
            else o.Break? && o.cpu.timeoutObj == c.timeoutObj
  {
    TimeoutRuleRuns(t, pkt, m, obj, c);
    KeyMeetsTarget(m, pkt);
    PortRoundTrip(m.source.port, DportBytes(pkt));
  }

  /** The expressions of a timeout rule from the address comparison on. */
  function OnAddr(a: AddrPort, obj: string): Rule {
    var addr, port := a.addr.AsSlice(), EncodePort(a.port);
    if a.addr.IsUnspecified()
    then [Payload(NFT_REG_2, TransportHeader, DPORT_OFFSET, 2), Cmp(NFT_REG_2, port)] + [Objref(obj)]
    else [Payload(NFT_REG_2, NetworkHeader, if a.addr.Is4() then DADDR4_OFFSET else DADDR6_OFFSET, |addr|),
          Cmp(NFT_REG_2, addr)]
         + ([Payload(NFT_REG_3, TransportHeader, DPORT_OFFSET, 2), Cmp(NFT_REG_3, port)] + [Objref(obj)])
  }

  lemma TimeoutRuleShape(protocol: Byte, a: AddrPort, obj: string)
    requires a.addr.IsValid()
    ensures DefineTimeoutRule(protocol, a, obj)
         == [Meta(L4Proto, NFT_REG_1), Cmp(NFT_REG_1, [protocol])]
            + ([Meta(NfProto, NFT_REG_1), Cmp(NFT_REG_1, [Family(SetOf(a))])] + OnAddr(a, obj))
  {
  }

  lemma OnPortRuns(t: Tables, pkt: Packet, reg: nat, port: Bytes, obj: string, c: Cpu)
    requires |port| == 2 && WellFormed(pkt) && RegOffset(reg) <= 48
    ensures var rule := [Payload(reg, TransportHeader, DPORT_OFFSET, 2), Cmp(reg, port)] + [Objref(obj)];
            var o := ExecRule(t, pkt, rule, c);
            if DportBytes(pkt) == port then o.Next? && o.cpu.timeoutObj == Some(obj)
            else o.Break? && o.cpu.timeoutObj == c.timeoutObj
  {
    var c' := ComparePayload(t, pkt, reg, TransportHeader, DPORT_OFFSET, port, [Objref(obj)], c);
    ExecCons(t, pkt, Objref(obj), [], c');
    assert [Objref(obj)] + [] == [Objref(obj)];
  }

  lemma OnAddrRuns(t: Tables, pkt: Packet, a: AddrPort, obj: string, c: Cpu)
    requires a.addr.IsValid() && WellFormed(pkt) && pkt.nfproto == Family(SetOf(a))
    ensures var o := ExecRule(t, pkt, OnAddr(a, obj), c);
            if (a.addr.IsUnspecified() || Daddr(pkt).AsSlice() == a.addr.AsSlice())
               && DportBytes(pkt) == EncodePort(a.port)
            then o.Next? && o.cpu.timeoutObj == Some(obj)
            else o.Break? && o.cpu.timeoutObj == c.timeoutObj
  {
    var addr, port := a.addr.AsSlice(), EncodePort(a.port);
    if a.addr.IsUnspecified() {
      OnPortRuns(t, pkt, NFT_REG_2, port, obj, c);
    } else {
      var onPort := [Payload(NFT_REG_3, TransportHeader, DPORT_OFFSET, 2), Cmp(NFT_REG_3, port)] + [Objref(obj)];
      var offset := if a.addr.Is4() then DADDR4_OFFSET else DADDR6_OFFSET;
      assert pkt.net[offset..offset + |addr|] == Daddr(pkt).AsSlice();
      var c' := ComparePayload(t, pkt, NFT_REG_2, NetworkHeader, offset, addr, onPort, c);
      OnPortRuns(t, pkt, NFT_REG_3, port, obj, c');
    }
  }

  lemma TimeoutRuleRuns(t: Tables, pkt: Packet, m: Mapping, obj: string, c: Cpu)
    requires Validate(m) && WellFormed(pkt)
    ensures var o := ExecRule(t, pkt, DefineTimeoutRule(m.protocol, m.source, obj), c);
            if pkt.l4proto == m.protocol && pkt.nfproto == Family(SetOf(m.source))
               && (m.source.addr.IsUnspecified() || Daddr(pkt).AsSlice() == m.source.addr.AsSlice())
               && DportBytes(pkt) == EncodePort(m.source.port)
            then o.Next? && o.cpu.timeoutObj == Some(obj)
            else o.Break? && o.cpu.timeoutObj == c.timeoutObj
  {
    var fam, onAddr := Family(SetOf(m.source)), OnAddr(m.source, obj);
    var onFam := [Meta(NfProto, NFT_REG_1), Cmp(NFT_REG_1, [fam])] + onAddr;
    TimeoutRuleShape(m.protocol, m.source, obj);
    var c1 := CompareMeta(t, pkt, L4Proto, NFT_REG_1, m.protocol, onFam, c);
    if pkt.l4proto == m.protocol {
      var c2 := CompareMeta(t, pkt, NfProto, NFT_REG_1, fam, onAddr, c1);
      if pkt.nfproto == fam {
        OnAddrRuns(t, pkt, m.source, obj, c2);
      }
    }
  }

  /** The timeouts chain holds one rule per mapping with a timeout. */
  function TimeoutRules(ms: seq<Mapping>, objs: seq<string>): seq<Rule>
    requires |ms| == |objs|
  {
    if ms == [] then []
    else [DefineTimeoutRule(ms[0].protocol, ms[0].source, objs[0])] + TimeoutRules(ms[1..], objs[1..])
  }

  /** Over mappings that do not conflict, at most one rule of the chain matches any
      packet: the flow gets the object of the mapping that covers it, or none. */
  lemma {:induction false} TimeoutChainAttaches(t: Tables, pkt: Packet, ms: seq<Mapping>, objs: seq<string>, c: Cpu)
    requires |ms| == |objs| && WellFormed(pkt)
    requires forall m :: m in ms ==> Validate(m)
    requires forall i, j :: 0 <= i < j < |ms| ==> !Overlaps(ms[i], ms[j])
    ensures var o := ExecChain(t, pkt, TimeoutRules(ms, objs), c);
            && o.Next?
            && (forall i :: 0 <= i < |ms| && Covers(ms[i], TargetOf(pkt)) ==> o.cpu.timeoutObj == Some(objs[i]))
            && ((forall m :: m in ms ==> !Covers(m, TargetOf(pkt))) ==> o.cpu.timeoutObj == c.timeoutObj)
  {
    hide ExecRule, DefineTimeoutRule, Validate, LookupKey, CompileSetElement, TargetOf;
    if ms == [] {
    } else {
      var m := ms[0];
      TimeoutRuleMatches(t, pkt, m, objs[0], c);
      KeyMeetsTarget(m, pkt);
      var o := ExecRule(t, pkt, DefineTimeoutRule(m.protocol, m.source, objs[0]), c);
      assert TimeoutRules(ms, objs)[1..] == TimeoutRules(ms[1..], objs[1..]);
      TimeoutChainAttaches(t, pkt, ms[1..], objs[1..], o.cpu);
      forall i | 1 <= i < |ms| ensures Covers(ms[i], TargetOf(pkt)) ==> !Covers(m, TargetOf(pkt)) {
        OverlapsMeaning(m, ms[i]);
      }
      forall i | 0 <= i < |ms| && Covers(ms[i], TargetOf(pkt))
        ensures ExecChain(t, pkt, TimeoutRules(ms, objs), c).cpu.timeoutObj == Some(objs[i])
      {
        if i > 0 {
          assert ms[i] == ms[1..][i - 1] && objs[i] == objs[1..][i - 1];
        } else {
          forall x | x in ms[1..] ensures !Covers(x, TargetOf(pkt)) {
            var j :| 0 <= j < |ms[1..]| && ms[1..][j] == x;
            assert ms[j + 1] == x;
          }
        }
      }
    }
  }
}
