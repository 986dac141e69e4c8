/** Optional values, used wherever the source returns nil or a missing map entry. */
module Wrappers {
  datatype Option<+T> = None | Some(value: T)
}

/** Addresses, ports, protocols and timeouts, as Go's `netip` package and the
    repository's `config` package define them. */
module Net {
  type Byte = b: int | 0 <= b < 0x100
  type Bytes = seq<Byte>
  type Port = p: int | 0 <= p < 0x1_0000

  const ZERO4: Bytes := [0, 0, 0, 0]
  const ZERO16: Bytes := [0, 0, 0, 0, 0, 0, 0, 0, 0, 0, 0, 0, 0, 0, 0, 0]

  type Bytes4 = s: Bytes | |s| == 4 witness ZERO4
  type Bytes16 = s: Bytes | |s| == 16 witness ZERO16

  /** A `netip.Addr`. The zero value is neither IPv4 nor IPv6, and an IPv6 address
      may carry a zone; an address with a zone is never the unspecified one. */
  datatype Addr = NoAddr | V4(a4: Bytes4) | V6(a6: Bytes16, zone: string) {
    predicate Is4() { V4? }

    predicate Is6() { V6? }

    predicate IsValid() { !NoAddr? }

    predicate IsUnspecified() { this == V4(ZERO4) || this == V6(ZERO16, "") }

    function Zone(): string { if V6? then zone else "" }

    function AsSlice(): Bytes {
      match this
      case NoAddr => []
      case V4(a) => a
      case V6(a, _) => a
    }
  }

  /** A `netip.AddrPort`; comparison is comparison of all its parts. */
  datatype AddrPort = AddrPort(addr: Addr, port: Port)

  const PROTOCOL_TCP: Byte := 6
  const PROTOCOL_UDP: Byte := 17

  predicate IsValidProtocol(protocol: Byte) {
    protocol == PROTOCOL_TCP || protocol == PROTOCOL_UDP
  }

  /** Whole seconds in an unsigned 32-bit word. */
  type TTL = t: int | 0 <= t < 0x1_0000_0000
}
