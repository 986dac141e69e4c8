/** DNAT mappings: which ones are valid, and when two of them conflict. */
module Mappings {
  import opened Net

  datatype Mapping = Mapping(source: AddrPort, destination: AddrPort, timeout: TTL, protocol: Byte)

  /** The checks of `Validate`; the source reports a different text for each failure. */
  predicate Validate(m: Mapping) {
    && IsValidProtocol(m.protocol)
    && m.source.addr.IsValid()
    && m.destination.addr.IsValid()
    && m.source.port != 0
    && m.destination.port != 0
    && m.source.addr.Zone() == ""
    && m.destination.addr.Zone() == ""
    && !m.destination.addr.IsUnspecified()
    && !(m.source.addr.Is6() && m.destination.addr.Is4())
    && !(m.source.addr.Is4() && m.destination.addr.Is6())
    && m.source != m.destination
  }

  /** A mapping the gateway takes, in plain terms: TCP or UDP by number, two ports, two zoneless addresses
      of one family, a destination that is not all zeros, and two different endpoints. */
  predicate Legal(m: Mapping) {
    && (m.protocol == 6 || m.protocol == 17)
    && m.source.port != 0 && m.destination.port != 0
    && m.source != m.destination
    && match (m.source.addr, m.destination.addr)
       case (V4(_), V4(d)) => d != [0, 0, 0, 0]
       case (V6(_, z), V6(d, z')) => z == z' == "" && d != [0, 0, 0, 0, 0, 0, 0, 0, 0, 0, 0, 0, 0, 0, 0, 0]
       case _ => false
  }

  lemma ValidateExactly(m: Mapping)
    ensures Validate(m) <==> Legal(m)
  {
  }

  /** The conflict test, branch by branch. */
  predicate Overlaps(m: Mapping, other: Mapping) {
    if m.protocol != other.protocol then false
    else if m.source.addr.Is4() != other.source.addr.Is4() then false
    else if m.source == other.source || m.source == other.destination then true
    else if m.destination == other.destination || m.destination == other.source then true
    else if m.source.port != other.source.port then false
    else m.source.addr.IsUnspecified() || other.source.addr.IsUnspecified()
  }

  /** What a packet is addressed to: a transport protocol and a zoneless endpoint. */
  datatype Target = Target(protocol: Byte, endpoint: AddrPort)

  /** The endpoints a mapping's source stands for: its own one, or, for the
      unspecified address, every address of its family with its port. */
  predicate Covers(m: Mapping, t: Target) {
    && m.protocol == t.protocol
    && m.source.port == t.endpoint.port
    && if m.source.addr.IsUnspecified()
       then m.source.addr.Is4() == t.endpoint.addr.Is4() && m.source.addr.Is6() == t.endpoint.addr.Is6()
       else m.source.addr == t.endpoint.addr
  }

  /** Both mappings use the same literal endpoint somewhere. */
  predicate ShareEndpoint(m: Mapping, other: Mapping) {
    && m.protocol == other.protocol
    && (m.source == other.source || m.source == other.destination ||
        m.destination == other.destination || m.destination == other.source)
  }

  /** Valid mappings overlap exactly when some packet is covered by both sources,
      or when a literal endpoint of one is a literal endpoint of the other. */
  lemma OverlapsMeaning(m: Mapping, other: Mapping)
    requires Validate(m) && Validate(other)
    ensures Overlaps(m, other) <==>
            ShareEndpoint(m, other) || exists t :: Covers(m, t) && Covers(other, t)
  {
    if Overlaps(m, other) && !ShareEndpoint(m, other) {
      var both := if m.source.addr.IsUnspecified() then other.source else m.source;
      var t := Target(m.protocol, both);
      assert Covers(m, t) && Covers(other, t);
    }
  }

  lemma OverlapsSymmetric(m: Mapping, other: Mapping)
    ensures Overlaps(m, other) == Overlaps(other, m)
  {
  }

  /** No two different members of `ms` conflict, and every member is valid. */
  ghost predicate Consistent(ms: iset<Mapping>) {
    && (forall m :: m in ms ==> Validate(m))
    && (forall m, x :: m in ms && x in ms && m != x ==> !Overlaps(m, x))
  }

  /** `f : Source -> Destination` is a function: at most one member covers a target. */
  lemma RoutingIsFunction(ms: iset<Mapping>, m: Mapping, x: Mapping, t: Target)
    requires Consistent(ms) && m in ms && x in ms
    requires Covers(m, t) && Covers(x, t)
    ensures m == x
  {
    OverlapsMeaning(m, x);
  }

  /** Per protocol, routing is one-to-one and no literal source is a literal destination. */
  lemma RoutingOneToOne(ms: iset<Mapping>, m: Mapping, x: Mapping)
    requires Consistent(ms) && m in ms && x in ms && m.protocol == x.protocol
    ensures m.destination == x.destination ==> m == x
    ensures m.source == x.source ==> m == x
    ensures m.source != x.destination
  {
    if m != x {
      OverlapsMeaning(m, x);
    }
  }

  /** A member's destination is itself routed on by a member of the same protocol. */
  ghost predicate RoutesItsOwnDestination(ms: iset<Mapping>) {
    exists m, x :: m in ms && x in ms && Covers(m, Target(x.protocol, x.destination))
  }

  /** The comment on `Mapping` promises that, per protocol, the domain of `f` is disjoint
      from its codomain. A wildcard source is not expanded against destinations, so
      that holds exactly when no wildcard source has the protocol, family and port
      of a destination. */
  lemma DomainDisjointFromCodomain(ms: iset<Mapping>)
    requires Consistent(ms)
    ensures RoutesItsOwnDestination(ms) <==>
            exists m, x :: m in ms && x in ms && m.source.addr.IsUnspecified() && m.protocol == x.protocol
                           && m.source.addr.Is4() == x.destination.addr.Is4() && m.source.port == x.destination.port
  {
    if m, x :| m in ms && x in ms && Covers(m, Target(x.protocol, x.destination)) {
      RoutingOneToOne(ms, m, x);
      assert m.source.addr.IsUnspecified();
    }
    if m, x :| m in ms && x in ms && m.source.addr.IsUnspecified() && m.protocol == x.protocol
               && m.source.addr.Is4() == x.destination.addr.Is4() && m.source.port == x.destination.port {
      assert Covers(m, Target(x.protocol, x.destination));
    }
  }

  /** One accepted mapping already breaks the promised disjointness: 0.0.0.0:443 to 10.0.0.10:443. */
  lemma WildcardRoutesItsOwnDestination(m: Mapping)
    requires m == Mapping(AddrPort(V4(ZERO4), 443), AddrPort(V4([10, 0, 0, 10]), 443), 0, PROTOCOL_TCP)
    ensures Consistent(iset{m}) && RoutesItsOwnDestination(iset{m})
  {
    assert m in iset{m} && Covers(m, Target(m.protocol, m.destination));
  }

  /** The comment on `Mapping` gives a wildcard source its port outright. The check gives it its
      port in its own address family alone: against any source with the same protocol and
      port, a wildcard conflicts exactly when both are of one family. */
  lemma WildcardOwnsItsFamily(m: Mapping, x: Mapping)
    requires m.source.addr.IsUnspecified() && m.protocol == x.protocol && m.source.port == x.source.port
    ensures Overlaps(m, x) <==> m.source.addr.Is4() == x.source.addr.Is4()
  {
  }

  const UNIQUE_LOCAL: Bytes := [0xfd, 0, 0, 0, 0, 0, 0, 0, 0, 0, 0, 0, 0, 0, 0, 1]

  /** So 0.0.0.0:443 and [::]:443 may both be mapped. */
  lemma WildcardsShareAPort(m: Mapping, x: Mapping)
    requires m == Mapping(AddrPort(V4(ZERO4), 443), AddrPort(V4([10, 0, 0, 10]), 443), 0, PROTOCOL_TCP)
    requires x == Mapping(AddrPort(V6(ZERO16, ""), 443), AddrPort(V6(UNIQUE_LOCAL, ""), 443), 0, PROTOCOL_TCP)
    ensures m.source.addr.IsUnspecified() && x.source.addr.IsUnspecified()
    ensures m.protocol == x.protocol && m.source.port == x.source.port && Consistent(iset{m, x})
  {
    assert UNIQUE_LOCAL[0] != ZERO16[0];
    assert Validate(m) && Validate(x);
    WildcardOwnsItsFamily(m, x);
    WildcardOwnsItsFamily(x, m);
    hide Validate, Overlaps;
  }
}
