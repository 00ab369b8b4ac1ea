/** Client-to-server WebSocket frames: header layout, masking and the frame encoder
    (sections 5.2 and 5.3 of RFC 6455), as the server's hand-written parser reads them. */
module WsFrame {

  /** An octet; bit tests are written as divisions and remainders by powers of two. */
  type Byte = x: nat | x < 256

  const OP_CONTINUATION: Byte := 0
  const OP_TEXT: Byte := 1
  const OP_BINARY: Byte := 2
  const OP_CLOSE: Byte := 8
  const OP_PING: Byte := 9
  const OP_PONG: Byte := 10

  const MAX_INT64: nat := 0x7fff_ffff_ffff_ffff
  const TWO_TO_THE_64: nat := 0x1_0000_0000_0000_0000

  /** Two length-independent bytes, the longest length field and the mask. */
  const MAX_HEADER: nat := 14

  predicate IsControl(op: Byte) {
    op == OP_CLOSE || op == OP_PING || op == OP_PONG
  }

  datatype Header = Header(fin: bool, op: Byte, masked: bool, mask: seq<Byte>, length: nat)

  datatype WireError = FrameTooLarge | ProtocolError

  datatype Parsed = NeedMore | Bad(error: WireError) | Got(h: Header, hlen: nat)

  // ---------------------------------------------------------------- big-endian integers

  function BigEndian(s: seq<Byte>): nat {
    if s == [] then 0 else BigEndian(s[..|s| - 1]) * 256 + s[|s| - 1]
  }

  function BytesOf(n: nat, width: nat): (s: seq<Byte>)
    ensures |s| == width
  {
    if width == 0 then [] else BytesOf(n / 256, width - 1) + [n % 256]
  }

  function Pow256(width: nat): (p: nat)
    ensures p > 0
  {
    if width == 0 then 1 else 256 * Pow256(width - 1)
  }

  lemma PowersOf256()
    ensures Pow256(2) == 0x1_0000 && Pow256(8) == TWO_TO_THE_64
  {
    assert Pow256(1) == 256;
    assert Pow256(3) == 0x100_0000;
    assert Pow256(5) == 0x100_0000_0000;
    assert Pow256(7) == 0x100_0000_0000_0000;
  }

  lemma {:induction false} BigEndianBounded(s: seq<Byte>)
    ensures BigEndian(s) < Pow256(|s|)
  {
    if s != [] {
      BigEndianBounded(s[..|s| - 1]);
    }
  }

  /** Eight bytes never overflow the accumulator of the parser's 64-bit length loop. */
  lemma BigEndianFits64(s: seq<Byte>)
    requires |s| <= 8
    ensures BigEndian(s) < TWO_TO_THE_64
  {
    BigEndianBounded(s);
    Pow256Monotone(|s|, 8);
  }

  lemma {:induction false} Pow256Monotone(m: nat, n: nat)
    requires m <= n
    ensures Pow256(m) <= Pow256(n)
  {
    if m < n {
      Pow256Monotone(m, n - 1);
    }
  }

  lemma {:induction false} BigEndianOfBytes(n: nat, width: nat)
    requires n < Pow256(width)
    ensures BigEndian(BytesOf(n, width)) == n
  {
    if width != 0 {
      var s, high := BytesOf(n, width), n / 256;
      BigEndianOfBytes(high, width - 1);
      assert s[..|s| - 1] == BytesOf(high, width - 1);
      assert s[|s| - 1] == n % 256;
    }
  }

  // ---------------------------------------------------------------- masking

  function Pow2(bits: nat): (p: nat)
    ensures p > 0
  {
    if bits == 0 then 1 else 2 * Pow2(bits - 1)
  }

  lemma EightBits()
    ensures Pow2(8) == 256
  {
    assert Pow2(1) == 2;
    assert Pow2(3) == 8;
    assert Pow2(5) == 32;
    assert Pow2(7) == 128;
  }

  /** Bitwise exclusive or of the low bits of a and b. */
  function XorBits(a: nat, b: nat, bits: nat): (r: nat)
    ensures r < Pow2(bits)
  {
    if bits == 0 then 0
    else (if a % 2 == b % 2 then 0 else 1) + 2 * XorBits(a / 2, b / 2, bits - 1)
  }

  function Xor(a: Byte, b: Byte): Byte {
    assert Pow2(8) == 256 by { EightBits(); }
    XorBits(a, b, 8)
  }

  lemma {:induction false} XorBitsTwice(a: nat, b: nat, bits: nat)
    requires a < Pow2(bits)
    ensures XorBits(XorBits(a, b, bits), b, bits) == a
  {
    if bits != 0 {
      var once := XorBits(a, b, bits);
      XorBitsTwice(a / 2, b / 2, bits - 1);
      assert once / 2 == XorBits(a / 2, b / 2, bits - 1);
    }
  }

  function Unmask(p: seq<Byte>, mask: seq<Byte>): (u: seq<Byte>)
    requires |mask| == 4
    ensures |u| == |p|
    ensures forall i :: 0 <= i < |p| ==> u[i] == Xor(p[i], mask[i % 4])
  {
    seq(|p|, i requires 0 <= i < |p| => Xor(p[i], mask[i % 4]))
  }

  lemma UnmaskInvolutive(p: seq<Byte>, mask: seq<Byte>)
    requires |mask| == 4
    ensures Unmask(Unmask(p, mask), mask) == p
  {
    hide Xor;
    forall i | 0 <= i < |p|
      ensures Unmask(Unmask(p, mask), mask)[i] == p[i]
    {
      XorTwice(p[i], mask[i % 4]);
    }
  }

  lemma XorTwice(x: Byte, m: Byte)
    ensures Xor(Xor(x, m), m) == x
  {
    assert Pow2(8) == 256 by { EightBits(); }
    XorBitsTwice(x, m, 8);
  }

  /** Unmasks buf[from..to] in place and touches nothing else. */
  method Cipher(buf: array<Byte>, from: nat, to: nat, mask: seq<Byte>)
    requires from <= to <= buf.Length && |mask| == 4
    modifies buf
    ensures buf[..from] == old(buf[..from])
    ensures buf[from..to] == Unmask(old(buf[from..to]), mask)
    ensures buf[to..] == old(buf[to..])
  {
    hide Xor, Unmask;
    ghost var was := buf[..];
    var i := from;
    while i < to
      invariant from <= i <= to
      invariant forall k :: 0 <= k < from || i <= k < buf.Length ==> buf[k] == was[k]
      invariant forall k :: 0 <= k < i - from ==> buf[from + k] == Xor(was[from + k], mask[k % 4])
    {
      buf[i] := Xor(buf[i], mask[(i - from) % 4]);
      i := i + 1;
    }
    UnmaskedIs(was[from..to], mask, buf[from..to]);
  }

  lemma UnmaskedIs(p: seq<Byte>, mask: seq<Byte>, u: seq<Byte>)
    requires |mask| == 4 && |u| == |p|
    requires forall k :: 0 <= k < |p| ==> u[k] == Xor(p[k], mask[k % 4])
    ensures u == Unmask(p, mask)
  {
    hide Xor;
  }

  // ---------------------------------------------------------------- the header

  function LengthField(b: seq<Byte>): nat
    requires |b| >= 2
  {
    b[1] % 128
  }

  /** How many bytes of extended length follow the two fixed ones. */
  function ExtendedBytes(length7: nat): nat {
    if length7 == 126 then 2 else if length7 == 127 then 8 else 0
  }

  /** What the front of b says, by the layout of section 5.2 of RFC 6455 and the server's limits. */
  function HeaderOf(b: seq<Byte>, maxFrame: nat): Parsed {
    if |b| < 2 then NeedMore
    else
      var fin, op, length7 := b[0] >= 0x80, b[0] % 16, LengthField(b);
      var ext := ExtendedBytes(length7);
      if b[0] / 16 % 8 != 0 then Bad(ProtocolError)
      else if IsControl(op) && (length7 > 125 || !fin) then Bad(ProtocolError)
      else if |b| < 2 + ext then NeedMore
      else
        var length := if ext == 0 then length7 else BigEndian(b[2..2 + ext]);
        if length > maxFrame then Bad(FrameTooLarge)
        else if b[1] < 0x80 then Bad(ProtocolError)
        else if |b| < 2 + ext + 4 then NeedMore
        else Got(Header(fin, op, true, b[2 + ext..2 + ext + 4], length), 2 + ext + 4)
  }

  lemma HeaderBounds(b: seq<Byte>, maxFrame: nat)
    ensures var r := HeaderOf(b, maxFrame);
            && (r.Got? ==>
                  && 6 <= r.hlen <= MAX_HEADER && r.hlen <= |b|
                  && r.h.length <= maxFrame && r.h.masked && |r.h.mask| == 4)
            && (r.NeedMore? ==> |b| < MAX_HEADER)
  {
  }

  /** A decided header never changes when more bytes arrive behind it. */
  lemma HeaderPrefixStable(a: seq<Byte>, b: seq<Byte>, maxFrame: nat)
    requires !HeaderOf(a, maxFrame).NeedMore?
    ensures HeaderOf(a + b, maxFrame) == HeaderOf(a, maxFrame)
  {
    var ab := a + b;
    assert ab[0] == a[0] && ab[1] == a[1];
    var ext := ExtendedBytes(LengthField(a));
    if |a| >= 2 + ext {
      assert ab[2..2 + ext] == a[2..2 + ext];
    }
    if |a| >= 6 + ext {
      assert ab[2 + ext..2 + ext + 4] == a[2 + ext..2 + ext + 4];
    }
  }

  /** The incremental parser, branch for branch; the 64-bit length is accumulated in a loop. */
  method ParseHeader(b: seq<Byte>, maxFrame: nat) returns (r: Parsed)
    requires maxFrame <= MAX_INT64
    ensures r == HeaderOf(b, maxFrame)
  {
    if |b| < 2 {
      return NeedMore;
    }
    var fin := b[0] >= 0x80;
    if b[0] / 16 % 8 != 0 {
      return Bad(ProtocolError);
    }
    var op := b[0] % 16;
    var masked := b[1] >= 0x80;
    var length: nat := b[1] % 128;
    var hlen := 2;
    if IsControl(op) && (length > 125 || !fin) {
      return Bad(ProtocolError);
    }
    if length == 126 {
      if |b| < hlen + 2 {
        return NeedMore;
      }
      length := b[2] as nat * 256 + b[3] as nat;
      hlen := hlen + 2;
      TwoBytes(b[2..4]);
    } else if length == 127 {
      if |b| < hlen + 8 {
        return NeedMore;
      }
      var v: nat, i := 0, 2;
      while i < 10
        invariant 2 <= i <= 10
        invariant v == BigEndian(b[2..i]) && v < TWO_TO_THE_64
      {
        v := v * 256 + b[i];
        i := i + 1;
        assert b[2..i][..i - 3] == b[2..i - 1];
        BigEndianFits64(b[2..i]);
      }
      if v > maxFrame {
        return Bad(FrameTooLarge);
      }
      length := v;
      hlen := hlen + 8;
    }
    if length > maxFrame {
      return Bad(FrameTooLarge);
    }
    if !masked {
      return Bad(ProtocolError);
    }
    if |b| < hlen + 4 {
      return NeedMore;
    }
    return Got(Header(fin, op, masked, b[hlen..hlen + 4], length), hlen + 4);
  }

  lemma TwoBytes(s: seq<Byte>)
    requires |s| == 2
    ensures BigEndian(s) == s[0] as nat * 256 + s[1] as nat
  {
    assert s[..1][..0] == [];
    assert BigEndian(s[..1]) == s[0];
  }

  // ---------------------------------------------------------------- the client's encoder

  datatype LengthForm = Short | Medium | Long

  datatype ClientFrame = ClientFrame(fin: bool, op: Byte, form: LengthForm, mask: seq<Byte>, payload: seq<Byte>)

  /** A well-formed masked frame: any opcode, a four-byte mask, and a length that fits the chosen length
      form, which need not be the shortest; control frames are short and final. */
  predicate Sendable(f: ClientFrame, maxFrame: nat) {
    && f.op < 16
    && |f.mask| == 4
    && |f.payload| <= maxFrame
    && (f.form.Short? ==> |f.payload| <= 125)
    && (f.form.Medium? ==> |f.payload| < 0x1_0000)
    && (f.form.Long? ==> |f.payload| < TWO_TO_THE_64)
    && (IsControl(f.op) ==> f.form.Short? && f.fin)
  }

  function EncodeLength(form: LengthForm, n: nat): (s: seq<Byte>)
    ensures |s| >= 1
  {
    match form
    case Short => [0x80 + n % 128]
    case Medium => [0xfe] + BytesOf(n, 2)
    case Long => [0xff] + BytesOf(n, 8)
  }

  function Encode(f: ClientFrame): seq<Byte>
    requires |f.mask| == 4 && f.op < 16
  {
    [if f.fin then 0x80 + f.op else f.op] + EncodeLength(f.form, |f.payload|) + f.mask + Unmask(f.payload, f.mask)
  }

  function HeaderLen(form: LengthForm): nat {
    match form case Short => 6 case Medium => 8 case Long => 14
  }

  lemma LengthParsesBack(form: LengthForm, n: nat, b: seq<Byte>)
    requires form.Short? ==> n <= 125
    requires form.Medium? ==> n < 0x1_0000
    requires form.Long? ==> n < TWO_TO_THE_64
    requires var len := EncodeLength(form, n); |b| >= 1 + |len| && b[1..1 + |len|] == len
    ensures var ext := ExtendedBytes(LengthField(b));
            && b[1] >= 0x80
            && 6 + ext == HeaderLen(form)
            && |EncodeLength(form, n)| == 1 + ext
            && (form.Short? ==> LengthField(b) <= 125)
            && (if ext == 0 then LengthField(b) else BigEndian(b[2..2 + ext])) == n
  {
    var len := EncodeLength(form, n);
    assert b[1] == len[0];
    match form {
      case Short =>
      case Medium =>
        assert b[2..4] == len[1..];
        PowersOf256();
        BigEndianOfBytes(n, 2);
      case Long =>
        assert b[2..10] == len[1..];
        PowersOf256();
        BigEndianOfBytes(n, 8);
    }
  }

  /** Where each part of an encoded frame sits. */
  lemma EncodedLayout(f: ClientFrame, rest: seq<Byte>)
    requires |f.mask| == 4 && f.op < 16
    ensures var b, len := Encode(f) + rest, EncodeLength(f.form, |f.payload|);
            var data := 1 + |len| + 4;
            && |Encode(f)| == data + |f.payload|
            && b[0] == (if f.fin then 0x80 + f.op else f.op)
            && b[1..1 + |len|] == len
            && b[1 + |len|..data] == f.mask
            && b[data..|Encode(f)|] == Unmask(f.payload, f.mask)
            && b[|Encode(f)|..] == rest
  {
    hide EncodeLength, Unmask;
    var first := if f.fin then 0x80 + f.op else f.op;
    FiveParts(first, EncodeLength(f.form, |f.payload|), f.mask, Unmask(f.payload, f.mask), rest);
  }

  lemma FiveParts(first: Byte, len: seq<Byte>, mask: seq<Byte>, data: seq<Byte>, rest: seq<Byte>)
    ensures var b, at := [first] + len + mask + data + rest, 1 + |len| + |mask|;
            && b[0] == first && b[1..1 + |len|] == len && b[1 + |len|..at] == mask
            && b[at..at + |data|] == data && b[at + |data|..] == rest
  {
  }

  /** The length decides the header, given the first byte, the length bytes and the mask. */
  lemma HeaderFromParts(b: seq<Byte>, maxFrame: nat, fin: bool, op: Byte, form: LengthForm, n: nat)
    requires |b| >= HeaderLen(form) && n <= maxFrame
    requires b[0] / 16 % 8 == 0 && b[0] % 16 == op && (b[0] >= 0x80) == fin && b[1] >= 0x80
    requires IsControl(op) ==> LengthField(b) <= 125 && fin
    requires var ext := ExtendedBytes(LengthField(b));
             && HeaderLen(form) == 6 + ext
             && (if ext == 0 then LengthField(b) else BigEndian(b[2..2 + ext])) == n
    ensures HeaderOf(b, maxFrame)
         == Got(Header(fin, op, true, b[HeaderLen(form) - 4..HeaderLen(form)], n), HeaderLen(form))
  {
  }

  /** The parser recovers exactly the header the client wrote, whatever follows the frame. */
  lemma ParsesBack(f: ClientFrame, rest: seq<Byte>, maxFrame: nat)
    requires Sendable(f, maxFrame)
    ensures HeaderOf(Encode(f) + rest, maxFrame)
         == Got(Header(f.fin, f.op, true, f.mask, |f.payload|), HeaderLen(f.form))
    ensures |Encode(f)| == HeaderLen(f.form) + |f.payload|
    ensures Unmask((Encode(f) + rest)[HeaderLen(f.form)..|Encode(f)|], f.mask) == f.payload
    ensures (Encode(f) + rest)[|Encode(f)|..] == rest
  {
    var b := Encode(f) + rest;
    EncodedLayout(f, rest);
    LengthParsesBack(f.form, |f.payload|, b);
    HeaderFromParts(b, maxFrame, f.fin, f.op, f.form, |f.payload|);
    UnmaskInvolutive(f.payload, f.mask);
  }

  lemma {:induction false} BytesOfBigEndian(s: seq<Byte>)
    ensures BytesOf(BigEndian(s), |s|) == s
    decreases |s|
  {
    if s != [] {
      BytesOfBigEndian(s[..|s| - 1]);
    }
  }

  function FormOf(length7: nat): LengthForm {
    if length7 == 127 then Long else if length7 == 126 then Medium else Short
  }

  /** The length bytes of an accepted header are the encoding of its length. */
  lemma LengthWasEncoded(b: seq<Byte>, n: nat)
    requires |b| >= 2
    requires var ext := ExtendedBytes(LengthField(b));
             |b| >= 2 + ext && b[1] >= 0x80 && n == if ext == 0 then LengthField(b) else BigEndian(b[2..2 + ext])
    ensures var ext, form := ExtendedBytes(LengthField(b)), FormOf(LengthField(b));
            && EncodeLength(form, n) == b[1..2 + ext] && HeaderLen(form) == 6 + ext
            && (form.Short? ==> n <= 125) && (form.Medium? ==> n < 0x1_0000) && (form.Long? ==> n < TWO_TO_THE_64)
  {
    var ext := ExtendedBytes(LengthField(b));
    if ext == 0 {
      assert b[1..2] == [b[1]];
    } else {
      BytesOfBigEndian(b[2..2 + ext]);
      BigEndianBounded(b[2..2 + ext]);
      PowersOf256();
      assert b[1..2 + ext] == [b[1]] + b[2..2 + ext];
    }
  }

  /** And nothing else is accepted: a header that is accepted and whose payload is there is, with it,
      the encoding of a well-formed masked frame. */
  lemma AcceptedWasEncoded(b: seq<Byte>, maxFrame: nat) returns (f: ClientFrame)
    requires HeaderOf(b, maxFrame).Got?
    requires var r := HeaderOf(b, maxFrame); |b| >= r.hlen + r.h.length
    ensures var r := HeaderOf(b, maxFrame);
            && Sendable(f, maxFrame) && Encode(f) == b[..r.hlen + r.h.length]
            && r.h == Header(f.fin, f.op, true, f.mask, |f.payload|)
            && f.payload == Unmask(b[r.hlen..r.hlen + r.h.length], f.mask)
  {
    var h, hlen := HeaderOf(b, maxFrame).h, HeaderOf(b, maxFrame).hlen;
    var end, ext := hlen + h.length, ExtendedBytes(LengthField(b));
    f := ClientFrame(h.fin, h.op, FormOf(LengthField(b)), h.mask, Unmask(b[hlen..end], h.mask));
    LengthWasEncoded(b, h.length);
    UnmaskInvolutive(b[hlen..end], h.mask);
    FirstByte(b[0]);
    FourParts(b, 2 + ext, hlen, end);
    assert Encode(f) == [b[0]] + b[1..2 + ext] + b[2 + ext..hlen] + b[hlen..end];
  }

  lemma FirstByte(x: Byte)
    requires x / 16 % 8 == 0
    ensures x == if x >= 0x80 then 0x80 + x % 16 else x % 16
  {
  }

  lemma FourParts(b: seq<Byte>, i: nat, j: nat, end: nat)
    requires 1 <= i <= j <= end <= |b|
    ensures b[..end] == [b[0]] + b[1..i] + b[i..j] + b[j..end]
  {
  }
}
