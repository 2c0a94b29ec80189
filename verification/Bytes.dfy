/** Byte strings: big-endian integers, bit lengths, and Python's ordering of `bytes`. */
module Bytes {

  type byte = n: int | 0 <= n < 256

  type bytes = seq<byte>

  function Pow256(k: nat): (p: nat)
    ensures p >= 1
  {
    if k == 0 then 1 else 256 * Pow256(k - 1)
  }

  /** `n.to_bytes(length, "big")`, for an `n` that fits. */
  function ToBytes(n: nat, length: nat): (b: bytes)
    ensures |b| == length
    decreases length
  {
    if length == 0 then [] else ToBytes(n / 256, length - 1) + [n % 256]
  }

  /** `int.from_bytes(b, "big")`. */
  function FromBytes(b: bytes): nat {
    if b == [] then 0 else FromBytes(b[..|b| - 1]) * 256 + b[|b| - 1]
  }

  /** `n.bit_length()`. */
  function BitLength(n: nat): nat {
    if n == 0 then 0 else 1 + BitLength(n / 2)
  }

  /** The byte count the encoder asks for: `(n.bit_length() + 7) // 8`. */
  function ByteLength(n: nat): nat {
    (BitLength(n) + 7) / 8
  }

  /** Python's `a < b` on bytes: the first difference decides, a proper prefix is smaller. */
  predicate Less(a: bytes, b: bytes) {
    b != [] && (a == [] || a[0] < b[0] || (a[0] == b[0] && Less(a[1..], b[1..])))
  }

  /** `piece` stands in `data` at offset `off`. */
  predicate At(data: bytes, off: nat, piece: bytes) {
    off + |piece| <= |data| && data[off..off + |piece|] == piece
  }

  lemma AtParts(data: bytes, off: nat, a: bytes, b: bytes)
    ensures At(data, off, a + b) <==> At(data, off, a) && At(data, off + |a|, b)
  {
    if off + |a| + |b| <= |data| {
      var whole := data[off..off + |a + b|];
      assert data[off..off + |a|] == whole[..|a|];
      assert data[off + |a|..off + |a| + |b|] == whole[|a|..];
      assert (a + b)[..|a|] == a && (a + b)[|a|..] == b;
      assert whole == whole[..|a|] + whole[|a|..];
    }
  }

  lemma {:induction false} FromToBytes(n: nat, length: nat)
    requires n < Pow256(length)
    ensures FromBytes(ToBytes(n, length)) == n
    decreases length
  {
    if length > 0 {
      FromToBytes(n / 256, length - 1);
      var b := ToBytes(n, length);
      assert b[..|b| - 1] == ToBytes(n / 256, length - 1);
    }
  }

  lemma {:induction false} ToFromBytes(b: bytes)
    ensures FromBytes(b) < Pow256(|b|)
    ensures ToBytes(FromBytes(b), |b|) == b
  {
    if b != [] {
      var front := b[..|b| - 1];
      ToFromBytes(front);
      assert FromBytes(b) / 256 == FromBytes(front) && FromBytes(b) % 256 == b[|b| - 1];
      assert b == front + [b[|b| - 1]];
    }
  }

  lemma Shifted(first: nat, p: nat, rest: nat)
    ensures (first * p + rest) * 256 == first * (256 * p) + rest * 256
  {
  }

  lemma {:induction false} FirstByte(b: bytes)
    requires b != []
    ensures FromBytes(b) == b[0] * Pow256(|b| - 1) + FromBytes(b[1..])
  {
    var front := b[..|b| - 1];
    if front == [] {
      assert FromBytes(front) == 0 && b[1..] == [];
    } else {
      FirstByte(front);
      assert b[1..][..|b[1..]| - 1] == front[1..];
      assert FromBytes(b[1..]) == FromBytes(front[1..]) * 256 + b[|b| - 1];
      Shifted(b[0], Pow256(|b| - 2), FromBytes(front[1..]));
    }
  }

  lemma {:induction false} Scaled(a: nat, b: nat, p: nat)
    ensures a < b ==> a * p + p <= b * p
  {
    if a < b {
      assert b * p == (b - 1) * p + p;
      Scaled(a, b - 1, p);
    }
  }

  /** A leading byte is nonzero exactly when the number needs every byte it is given. */
  lemma LeadingByte(b: bytes)
    requires b != []
    ensures b[0] != 0 <==> FromBytes(b) >= Pow256(|b| - 1)
  {
    FirstByte(b);
    ToFromBytes(b[1..]);
    Scaled(0, b[0], Pow256(|b| - 1));
  }

  /** On equal lengths the bytewise order is the order of the numbers. */
  lemma {:induction false} LessIsNumeric(a: bytes, b: bytes)
    requires |a| == |b|
    ensures Less(a, b) <==> FromBytes(a) < FromBytes(b)
  {
    if a != [] {
      LessIsNumeric(a[1..], b[1..]);
      FirstByte(a);
      FirstByte(b);
      ToFromBytes(a[1..]);
      ToFromBytes(b[1..]);
      Scaled(a[0], b[0], Pow256(|a| - 1));
      Scaled(b[0], a[0], Pow256(|a| - 1));
    }
  }

  lemma BitLengthStep(n: nat)
    requires n >= 256
    ensures BitLength(n) == 8 + BitLength(n / 256)
  {
    assert n / 2 / 2 == n / 4;
    assert n / 4 / 2 == n / 8;
    assert n / 8 / 2 == n / 16;
    assert n / 16 / 2 == n / 32;
    assert n / 32 / 2 == n / 64;
    assert n / 64 / 2 == n / 128;
    assert n / 128 / 2 == n / 256;
    assert BitLength(n) == 1 + BitLength(n / 2) == 2 + BitLength(n / 4);
    assert BitLength(n / 4) == 1 + BitLength(n / 8) == 2 + BitLength(n / 16);
    assert BitLength(n / 16) == 1 + BitLength(n / 32) == 2 + BitLength(n / 64);
    assert BitLength(n / 64) == 1 + BitLength(n / 128) == 2 + BitLength(n / 256);
  }

  lemma BitLengthByte(n: nat)
    requires 0 < n < 256
    ensures 1 <= BitLength(n) <= 8
  {
    var a, b, c := n / 2, n / 2 / 2, n / 2 / 2 / 2;
    var d, e := c / 2, c / 2 / 2;
    var f, g := e / 2, e / 2 / 2;
    assert a < 128 && b < 64 && c < 32 && d < 16 && e < 8 && f < 4 && g < 2;
    assert BitLength(g) <= 1;
    assert BitLength(f) <= 2;
    assert BitLength(e) <= 3;
    assert BitLength(d) <= 4;
    assert BitLength(c) <= 5;
    assert BitLength(b) <= 6;
    assert BitLength(a) <= 7;
  }

  /** The byte length is enough for the number and never one byte too many. */
  lemma {:induction false} ByteLengthIsMinimal(n: nat)
    ensures n < Pow256(ByteLength(n))
    ensures n > 0 ==> ByteLength(n) > 0 && Pow256(ByteLength(n) - 1) <= n
  {
    if n >= 256 {
      BitLengthStep(n);
      ByteLengthIsMinimal(n / 256);
      assert ByteLength(n) == 1 + ByteLength(n / 256);
    } else if n > 0 {
      BitLengthByte(n);
      assert ByteLength(n) == 1 && Pow256(1) == 256;
    }
  }

  lemma {:induction false} Pow256Monotone(i: nat, j: nat)
    requires i <= j
    ensures Pow256(i) <= Pow256(j)
    decreases j - i
  {
    if i < j {
      Pow256Monotone(i, j - 1);
    }
  }

  /** Only one byte string without a leading zero stands for a number: the one the formula sizes. */
  lemma MinimalContent(b: bytes)
    requires b != [] && b[0] != 0
    ensures ByteLength(FromBytes(b)) == |b|
  {
    var n := FromBytes(b);
    LeadingByte(b);
    ToFromBytes(b);
    ByteLengthIsMinimal(n);
    var l := ByteLength(n);
    if l < |b| {
      Pow256Monotone(l, |b| - 1);
    } else if l > |b| {
      Pow256Monotone(|b|, l - 1);
    }
  }

  lemma PowValues()
    ensures Pow256(1) == 0x100
    ensures Pow256(2) == 0x1_0000
    ensures Pow256(4) == 0x1_0000_0000
    ensures Pow256(8) == 0x1_0000_0000_0000_0000
  {
    assert Pow256(3) == 0x100_0000;
    assert Pow256(5) == 256 * Pow256(4);
    assert Pow256(6) == 256 * Pow256(5);
    assert Pow256(7) == 256 * Pow256(6);
  }
}
