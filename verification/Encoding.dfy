/** The byte forms of map keys and values: fields joined, each padded to four bytes. */
module Encoding {
  import opened Net
  import opened Mappings

  function EncodePort(port: Port): (b: Bytes)
    ensures |b| == 2
  {
    [port / 0x100, port % 0x100]
  }

  function DecodePort(b: Bytes): Port
    requires |b| == 2
  {
    (b[0] as int) * 0x100 + b[1]
  }

  function AppendConcatField(dst: Bytes, field: Bytes): Bytes {
    var dst := dst + field;
    var rem := |field| % 4;
    if rem != 0 then dst + seq(4 - rem, _ => 0) else dst
  }

  function EncodeSpecificKey(protocol: Byte, address: AddrPort): Bytes {
    var buf := AppendConcatField([], [protocol]);
    var buf := AppendConcatField(buf, address.addr.AsSlice());
    AppendConcatField(buf, EncodePort(address.port))
  }

  function EncodeWildcardKey(protocol: Byte, port: Port): Bytes {
    var buf := AppendConcatField([], [protocol]);
    AppendConcatField(buf, EncodePort(port))
  }

  function EncodeMapValue(address: AddrPort): Bytes {
    var buf := AppendConcatField([], address.addr.AsSlice());
    AppendConcatField(buf, EncodePort(address.port))
  }

  /** A key and a value, as `compileSetElement` pairs them. */
  datatype SetElement = SetElement(key: Bytes, val: Bytes)

  function CompileSetElement(m: Mapping): SetElement {
    SetElement(
      if m.source.addr.IsUnspecified() then EncodeWildcardKey(m.protocol, m.source.port)
      else EncodeSpecificKey(m.protocol, m.source),
      EncodeMapValue(m.destination))
  }

  lemma PortRoundTrip(port: Port, b: Bytes)
    requires |b| == 2
    ensures DecodePort(EncodePort(port)) == port
    ensures EncodePort(DecodePort(b)) == b
  {
    var q := DecodePort(b);
    assert q / 0x100 == b[0] && q % 0x100 == b[1];
  }

  lemma FieldLayout(dst: Bytes, field: Bytes)
    ensures |field| % 4 == 0 ==> AppendConcatField(dst, field) == dst + field
    ensures |field| == 1 ==> AppendConcatField(dst, field) == dst + (field + [0, 0, 0])
    ensures |field| == 2 ==> AppendConcatField(dst, field) == dst + (field + [0, 0])
    ensures |field| <= |AppendConcatField([], field)| < |field| + 4
    ensures AppendConcatField([], field)[..|field|] == field
  {
  }

  /** The keys and values in memory, field by field. */
  lemma Layout(protocol: Byte, a: AddrPort)
    ensures EncodeWildcardKey(protocol, a.port) == [protocol, 0, 0, 0] + (EncodePort(a.port) + [0, 0])
    ensures a.addr.IsValid() ==>
              EncodeSpecificKey(protocol, a) == [protocol, 0, 0, 0] + a.addr.AsSlice() + (EncodePort(a.port) + [0, 0])
    ensures a.addr.IsValid() ==> EncodeMapValue(a) == a.addr.AsSlice() + (EncodePort(a.port) + [0, 0])
  {
    hide AppendConcatField, EncodePort;
    FieldLayout([], [protocol]);
    assert [] + ([protocol] + [0, 0, 0]) == [protocol, 0, 0, 0];
    assert [] + a.addr.AsSlice() == a.addr.AsSlice();
    FieldLayout([protocol, 0, 0, 0], EncodePort(a.port));
    FieldLayout([protocol, 0, 0, 0], a.addr.AsSlice());
    FieldLayout([protocol, 0, 0, 0] + a.addr.AsSlice(), EncodePort(a.port));
    FieldLayout([], a.addr.AsSlice());
    FieldLayout(a.addr.AsSlice(), EncodePort(a.port));
  }

  /** Where the parts of a three-part text are. */
  lemma Parts(a: Bytes, b: Bytes, c: Bytes)
    ensures (a + b + c)[..|a|] == a
    ensures (a + b + c)[|a|..|a| + |b|] == b
    ensures (a + b + c)[|a| + |b|..] == c
  {
  }

  lemma PortFieldInjective(port: Port, port': Port)
    requires EncodePort(port) + [0, 0] == EncodePort(port') + [0, 0]
    ensures port == port'
  {
    PortRoundTrip(port, [0, 0]);
    PortRoundTrip(port', [0, 0]);
    assert EncodePort(port) == (EncodePort(port) + [0, 0])[..2];
    assert EncodePort(port') == (EncodePort(port') + [0, 0])[..2];
  }

  /** The padded forms lose nothing: equal specific keys of one family come from
      one protocol and one zoneless endpoint. */
  lemma SpecificKeyInjective(p: Byte, a: AddrPort, q: Byte, b: AddrPort)
    requires a.addr.IsValid() && b.addr.IsValid() && a.addr.Is4() == b.addr.Is4()
    requires a.addr.Zone() == "" && b.addr.Zone() == ""
    requires EncodeSpecificKey(p, a) == EncodeSpecificKey(q, b)
    ensures p == q && a == b
  {
    hide EncodeSpecificKey, EncodePort, AppendConcatField;
    Layout(p, a);
    Layout(q, b);
    Parts([p, 0, 0, 0], a.addr.AsSlice(), EncodePort(a.port) + [0, 0]);
    Parts([q, 0, 0, 0], b.addr.AsSlice(), EncodePort(b.port) + [0, 0]);
    assert [p, 0, 0, 0] == [q, 0, 0, 0];
    assert [p, 0, 0, 0][0] == [q, 0, 0, 0][0];
    PortFieldInjective(a.port, b.port);
  }

  lemma WildcardKeyInjective(p: Byte, port: Port, q: Byte, port': Port)
    requires EncodeWildcardKey(p, port) == EncodeWildcardKey(q, port')
    ensures p == q && port == port'
  {
    hide EncodeWildcardKey, EncodePort, AppendConcatField;
    Layout(p, AddrPort(NoAddr, port));
    Layout(q, AddrPort(NoAddr, port'));
    Parts([p, 0, 0, 0], EncodePort(port) + [0, 0], []);
    Parts([q, 0, 0, 0], EncodePort(port') + [0, 0], []);
    var k := EncodeWildcardKey(p, port);
    assert k + [] == k;
    assert [p, 0, 0, 0][0] == k[0] == [q, 0, 0, 0][0];
    PortFieldInjective(port, port');
  }

  lemma MapValueInjective(a: AddrPort, b: AddrPort)
    requires a.addr.IsValid() && b.addr.IsValid() && a.addr.Is4() == b.addr.Is4()
    requires a.addr.Zone() == "" && b.addr.Zone() == ""
    requires EncodeMapValue(a) == EncodeMapValue(b)
    ensures a == b
  {
    Layout(0, a);
    Layout(0, b);
    var x, y := a.addr.AsSlice(), b.addr.AsSlice();
    hide EncodeMapValue, EncodePort;
    assert (x + (EncodePort(a.port) + [0, 0]))[..|x|] == x;
    assert (y + (EncodePort(b.port) + [0, 0]))[..|y|] == y;
    assert (x + (EncodePort(a.port) + [0, 0]))[|x|..] == EncodePort(a.port) + [0, 0];
    assert (y + (EncodePort(b.port) + [0, 0]))[|y|..] == EncodePort(b.port) + [0, 0];
    PortFieldInjective(a.port, b.port);
  }
}
