/** Names of timeout objects: the 64-bit FNV-1a hash (section 2 of draft-eastlake-fnv)
    of the protocol, address and port bytes, in hexadecimal. */
module TimeoutNames {
  import opened Net
  import opened Encoding

  const MODULUS := 0x1_0000_0000_0000_0000
  const OFFSET_BASIS: Word := 14695981039346656037
  const PRIME := 1099511628211
  /** The inverse of PRIME modulo 2^64, and the quotient that shows it. */
  const INVERSE := 14886173955864302971
  const QUOTIENT := 887285111055

  type Word = w: int | 0 <= w < 0x1_0000_0000_0000_0000

  function Pow2(n: nat): nat { if n == 0 then 1 else 2 * Pow2(n - 1) }

  /** Exclusive or of the low `bits` bits. */
  function Xor(a: nat, b: nat, bits: nat): (x: nat)
    ensures x < Pow2(bits)
  {
    if bits == 0 then 0 else 2 * Xor(a / 2, b / 2, bits - 1) + (a + b) % 2
  }

  /** One FNV-1a step on unsigned 64-bit words, with wrap-around. */
  function HashByte(h: Word, b: Byte): Word {
    Xor(h, b, 64) * PRIME % MODULUS
  }

  function Hash(h: Word, bs: Bytes): Word
    decreases bs
  {
    if bs == [] then h else Hash(HashByte(h, bs[0]), bs[1..])
  }

  function HexDigit(d: nat): char
    requires d < 16
  {
    "0123456789abcdef"[d]
  }

  /** The last `width` hexadecimal digits of `n`, as %016x prints them for width 16. */
  function Hex(n: nat, width: nat): (s: string)
    ensures |s| == width
  {
    if width == 0 then "" else Hex(n / 16, width - 1) + [HexDigit(n % 16)]
  }

  /** The bytes written to the hasher. */
  function HashedBytes(protocol: Byte, address: AddrPort): Bytes {
    [protocol] + address.addr.AsSlice() + EncodePort(address.port)
  }

  function EncodeTimeoutObjName(protocol: Byte, address: AddrPort): string {
    "ct_" + Hex(Hash(OFFSET_BASIS, HashedBytes(protocol, address)), 16)
  }

  lemma HalvesAndParity(n: nat, half: nat, parity: nat)
    requires n == 2 * half + parity && parity < 2
    ensures n / 2 == half && n % 2 == parity
  {
  }

  lemma ParityCancels(a: nat, a': nat, b: nat)
    requires (a + b) % 2 == (a' + b) % 2
    ensures a % 2 == a' % 2
  {
  }

  lemma {:induction false} XorInjective(a: nat, a': nat, b: nat, bits: nat)
    requires a < Pow2(bits) && a' < Pow2(bits)
    requires Xor(a, b, bits) == Xor(a', b, bits)
    ensures a == a'
  {
    if bits > 0 {
      var x, x' := Xor(a / 2, b / 2, bits - 1), Xor(a' / 2, b / 2, bits - 1);
      HalvesAndParity(2 * x + (a + b) % 2, x, (a + b) % 2);
      HalvesAndParity(2 * x' + (a' + b) % 2, x', (a' + b) % 2);
      ParityCancels(a, a', b);
      assert Pow2(bits) == 2 * Pow2(bits - 1);
      XorInjective(a / 2, a' / 2, b / 2, bits - 1);
    }
  }

  lemma {:induction false} XorSymmetric(a: nat, b: nat, bits: nat)
    ensures Xor(a, b, bits) == Xor(b, a, bits)
  {
    if bits > 0 {
      XorSymmetric(a / 2, b / 2, bits - 1);
    }
  }

  /** Multiplication by the odd prime is injective modulo 2^64. */
  lemma PrimeInjective(x: Word, y: Word)
    requires x * PRIME % MODULUS == y * PRIME % MODULUS
    ensures x == y
  {
    var d := x * PRIME / MODULUS - y * PRIME / MODULUS;
    var e := x - y;
    assert e * PRIME == MODULUS * d;
    assert PRIME * INVERSE == 1 + MODULUS * QUOTIENT;
    var t := d * INVERSE - e * QUOTIENT;
    assert e == MODULUS * t;
  }

  lemma Pow2Nibble(n: nat)
    ensures Pow2(n + 4) == 16 * Pow2(n)
  {
    assert Pow2(n + 4) == 2 * Pow2(n + 3);
    assert Pow2(n + 3) == 2 * Pow2(n + 2);
    assert Pow2(n + 2) == 2 * Pow2(n + 1);
  }

  lemma {:induction false} Pow2Is(width: nat, word: nat)
    requires width <= 16 && word == [0x1, 0x10, 0x100, 0x1000, 0x1_0000, 0x10_0000, 0x100_0000, 0x1000_0000,
      0x1_0000_0000, 0x10_0000_0000, 0x100_0000_0000, 0x1000_0000_0000, 0x1_0000_0000_0000, 0x10_0000_0000_0000,
      0x100_0000_0000_0000, 0x1000_0000_0000_0000, 0x1_0000_0000_0000_0000][width]
    ensures Pow2(4 * width) == word
  {
    if width > 0 {
      Pow2Is(width - 1, word / 16);
      Pow2Nibble(4 * (width - 1));
    }
  }

  lemma WordBound()
    ensures Pow2(64) == MODULUS
  {
    Pow2Is(16, MODULUS);
  }

  /** A step loses nothing: not of the state, and not of the byte. */
  lemma StepInjective(h: Word, h': Word, b: Byte, b': Byte)
    requires HashByte(h, b) == HashByte(h', b')
    ensures b == b' ==> h == h'
    ensures h == h' ==> b == b'
  {
    WordBound();
    PrimeInjective(Xor(h, b, 64), Xor(h', b', 64));
    if b == b' {
      XorInjective(h, h', b, 64);
    } else if h == h' {
      XorSymmetric(h, b, 64);
      XorSymmetric(h, b', 64);
      XorInjective(b, b', h, 64);
    }
  }

  lemma {:induction false} HashInjective(h: Word, h': Word, bs: Bytes)
    requires h != h'
    ensures Hash(h, bs) != Hash(h', bs)
    decreases bs
  {
    if bs == [] {
    } else {
      if HashByte(h, bs[0]) == HashByte(h', bs[0]) {
        StepInjective(h, h', bs[0], bs[0]);
      }
      HashInjective(HashByte(h, bs[0]), HashByte(h', bs[0]), bs[1..]);
    }
  }

  /** Texts that differ at one position have different hashes. */
  lemma {:induction false} OneByteChangesHash(h: Word, bs: Bytes, cs: Bytes, at: nat)
    requires |bs| == |cs| && at < |bs| && bs[at] != cs[at]
    requires forall i :: 0 <= i < |bs| && i != at ==> bs[i] == cs[i]
    ensures Hash(h, bs) != Hash(h, cs)
    decreases bs
  {
    if at == 0 {
      assert bs[1..] == cs[1..];
      if HashByte(h, bs[0]) == HashByte(h, cs[0]) {
        StepInjective(h, h, bs[0], cs[0]);
      }
      HashInjective(HashByte(h, bs[0]), HashByte(h, cs[0]), bs[1..]);
    } else {
      OneByteChangesHash(HashByte(h, bs[0]), bs[1..], cs[1..], at - 1);
    }
  }

  lemma {:induction false} HexInjective(n: nat, n': nat, width: nat)
    requires n < Pow2(4 * width) && n' < Pow2(4 * width)
    requires Hex(n, width) == Hex(n', width)
    ensures n == n'
  {
    if width > 0 {
      var s, s' := Hex(n, width), Hex(n', width);
      assert s[..width - 1] == Hex(n / 16, width - 1) && s'[..width - 1] == Hex(n' / 16, width - 1);
      assert s[width - 1] == HexDigit(n % 16) && s'[width - 1] == HexDigit(n' % 16);
      DigitInjective(n % 16, n' % 16);
      Pow2Nibble(4 * (width - 1));
      HexInjective(n / 16, n' / 16, width - 1);
    }
  }

  lemma DigitInjective(d: nat, d': nat)
    requires d < 16 && d' < 16 && HexDigit(d) == HexDigit(d')
    ensures d == d'
  {
    var digits := "0123456789abcdef";
    assert forall i, j :: 0 <= i < j < 16 ==> digits[i] != digits[j];
  }

  /** Sources of one family whose hashed bytes differ at exactly one position never
      share a timeout object. */
  lemma NamesDiffer(p: Byte, a: AddrPort, q: Byte, b: AddrPort, at: nat)
    requires a.addr.IsValid() && b.addr.IsValid() && a.addr.Is4() == b.addr.Is4()
    requires at < |HashedBytes(p, a)| && HashedBytes(p, a)[at] != HashedBytes(q, b)[at]
    requires forall i :: 0 <= i < |HashedBytes(p, a)| && i != at ==> HashedBytes(p, a)[i] == HashedBytes(q, b)[i]
    ensures EncodeTimeoutObjName(p, a) != EncodeTimeoutObjName(q, b)
  {
    OneByteChangesHash(OFFSET_BASIS, HashedBytes(p, a), HashedBytes(q, b), at);
    var n, n' := EncodeTimeoutObjName(p, a), EncodeTimeoutObjName(q, b);
    assert n[3..] == Hex(Hash(OFFSET_BASIS, HashedBytes(p, a)), 16);
    assert n'[3..] == Hex(Hash(OFFSET_BASIS, HashedBytes(q, b)), 16);
    if n == n' {
      WordBound();
      HexInjective(Hash(OFFSET_BASIS, HashedBytes(p, a)), Hash(OFFSET_BASIS, HashedBytes(q, b)), 16);
    }
  }

  /** In particular TCP and UDP on one listen address have objects of their own. */
  lemma ProtocolsHaveOwnNames(a: AddrPort)
    requires a.addr.IsValid()
    ensures EncodeTimeoutObjName(PROTOCOL_TCP, a) != EncodeTimeoutObjName(PROTOCOL_UDP, a)
  {
    NamesDiffer(PROTOCOL_TCP, a, PROTOCOL_UDP, a, 0);
  }

  // What the parts compute

  function Bit(n: nat, k: nat): nat {
    if k == 0 then n % 2 else Bit(n / 2, k - 1)
  }

  /** A bit of the exclusive or is set exactly when it is set in one of the two. */
  lemma {:induction false} XorBit(a: nat, b: nat, bits: nat, k: nat)
    requires k < bits
    ensures Bit(Xor(a, b, bits), k) == 1 <==> Bit(a, k) != Bit(b, k)
    ensures Bit(a, k) < 2 && Bit(b, k) < 2
  {
    var x := Xor(a / 2, b / 2, bits - 1);
    HalvesAndParity(2 * x + (a + b) % 2, x, (a + b) % 2);
    if k == 0 {
      SumParity(a, b);
    } else {
      XorBit(a / 2, b / 2, bits - 1, k - 1);
    }
  }

  lemma SumParity(a: nat, b: nat)
    ensures (a + b) % 2 == 1 <==> a % 2 != b % 2
  {
  }

  /** Without further bits in `b`, the exclusive or keeps what is above them in `a`. */
  lemma {:induction false} XorNothing(a: nat, bits: nat)
    requires a < Pow2(bits)
    ensures Xor(a, 0, bits) == a
  {
    if bits == 0 {
    } else {
      XorNothing(a / 2, bits - 1);
    }
  }

  lemma XorStep(a: nat, b: nat, bits: nat, x: nat)
    requires bits > 0 && Xor(a / 2, b / 2, bits - 1) == x
    ensures Xor(a, b, bits) == 2 * x + (a + b) % 2
  {
  }

  /** The values that the reference gives for the empty text and for "a". */
  lemma KnownHashes()
    ensures Hash(OFFSET_BASIS, []) == 0xcbf29ce484222325
    ensures Hash(OFFSET_BASIS, [0x61]) == 0xaf63dc4c8601ec8c
  {
    Pow2Is(14, 0x100_0000_0000_0000);
    assert Pow2(57) == 2 * Pow2(56);
    XorNothing(0x197e539c9084446, 57);
    hide Xor;
    XorStep(0x32fca739210888c, 0x1, 58, 0x197e539c9084446);
    XorStep(0x65f94e724211119, 0x3, 59, 0x32fca739210888d);
    XorStep(0xcbf29ce48422232, 0x6, 60, 0x65f94e72421111a);
    XorStep(0x197e539c90844464, 0xc, 61, 0xcbf29ce48422234);
    XorStep(0x32fca739210888c9, 0x18, 62, 0x197e539c90844468);
    XorStep(0x65f94e7242111192, 0x30, 63, 0x32fca739210888d1);
    XorStep(0xcbf29ce484222325, 0x61, 64, 0x65f94e72421111a2);
    OneByte(OFFSET_BASIS, 0x61);
  }

  lemma OneByte(h: Word, b: Byte)
    ensures Hash(h, []) == h && Hash(h, [b]) == HashByte(h, b)
  {
    assert [b][1..] == [];
  }

  function Digit(n: nat, i: nat): nat {
    if i == 0 then n % 16 else Digit(n / 16, i - 1)
  }

  predicate ShowsDigit(c: char, d: nat) {
    d < 16 && c == "0123456789abcdef"[d]
  }

  /** The digits are printed from the highest to the lowest. */
  lemma {:induction false} HexDigits(n: nat, width: nat, i: nat)
    requires i < width
    ensures ShowsDigit(Hex(n, width)[width - 1 - i], Digit(n, i))
    decreases width
  {
    if i == 0 {
    } else {
      HexDigits(n / 16, width - 1, i - 1);
      assert Hex(n, width)[width - 1 - i] == Hex(n / 16, width - 1)[width - 1 - i];
    }
  }

  /** What is hashed of a source, and how the name shows the hash. */
  lemma NameShape(protocol: Byte, a: AddrPort, i: nat)
    requires i < 16
    ensures var name := EncodeTimeoutObjName(protocol, a);
            && |name| == 19 && name[..3] == "ct_"
            && ShowsDigit(name[18 - i], Digit(Hash(OFFSET_BASIS, HashedBytes(protocol, a)), i))
    ensures a.addr.V4? ==> HashedBytes(protocol, a) == [protocol] + a.addr.a4 + [a.port / 256, a.port % 256]
    ensures a.addr.V6? ==> HashedBytes(protocol, a) == [protocol] + a.addr.a6 + [a.port / 256, a.port % 256]
  {
    HexDigits(Hash(OFFSET_BASIS, HashedBytes(protocol, a)), 16, i);
  }
}
