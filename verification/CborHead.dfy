/** CBOR heads (RFC 8949 section 3) in shortest form: writing one and reading one back. */
module CborHead {
  import opened Bytes
  import opened Results

  const UINT64_MAX: int := 0xFFFF_FFFF_FFFF_FFFF

  type Major = m: int | 0 <= m < 8

  datatype HeadRead = HeadRead(major: Major, arg: nat, next: nat)

  /** `_head`. The source's `major << 5` and `mt | x` are the sums below: `x` has only the low five bits. */
  function Head(major: Major, n: int): Result<bytes> {
    var mt := major * 32;
    if n < 0 then Err(NegativeHead)
    else if n < 24 then Ok([mt + n])
    else if n < 0x100 then Ok([mt + 24, n])
    else if n < 0x1_0000 then Ok([mt + 25] + ToBytes(n, 2))
    else if n < 0x1_0000_0000 then Ok([mt + 26] + ToBytes(n, 4))
    else if n <= UINT64_MAX then Ok([mt + 27] + ToBytes(n, 8))
    else Err(ArgumentTooLarge)
  }

  /** The 2, 4 and 8 byte branches of `_read_arg`; `least` is the smallest argument that needs them. */
  function ReadWide(data: bytes, off: nat, major: Major, width: nat, least: nat): Result<HeadRead> {
    if |data| < off + width then Err(TruncatedArgument)
    else
      var n := FromBytes(data[off..off + width]);
      if n < least then Err(NonShortest) else Ok(HeadRead(major, n, off + width))
  }

  /** `_read_arg`. */
  function ReadArg(data: bytes, off: nat): (r: Result<HeadRead>)
    ensures r.Ok? ==> off < r.value.next <= |data|
  {
    if off >= |data| then Err(TruncatedHead)
    else
      var major := data[off] / 32;
      var ai := data[off] % 32;
      if ai < 24 then Ok(HeadRead(major, ai, off + 1))
      else if ai == 24 then
        if off + 1 >= |data| then Err(TruncatedArgument)
        else if data[off + 1] < 24 then Err(NonShortest)
        else Ok(HeadRead(major, data[off + 1], off + 2))
      else if ai == 25 then ReadWide(data, off + 1, major, 2, 0x100)
      else if ai == 26 then ReadWide(data, off + 1, major, 4, 0x1_0000)
      else if ai == 27 then ReadWide(data, off + 1, major, 8, 0x1_0000_0000)
      else Err(ReservedArgument)
  }

  lemma HeadDomain(major: Major, n: int)
    ensures Head(major, n).Ok? <==> 0 <= n <= UINT64_MAX
    ensures Head(major, n).Ok? ==> 1 <= |Head(major, n).value| <= 9 && Head(major, n).value[0] / 32 == major
  {
  }

  lemma SplitInitialByte(major: Major, x: int)
    requires 0 <= x < 32
    ensures (major * 32 + x) / 32 == major && (major * 32 + x) % 32 == x
  {
  }

  lemma WideRoundTrip(data: bytes, off: nat, major: Major, width: nat, least: nat, n: nat)
    requires At(data, off, ToBytes(n, width))
    requires least <= n < Pow256(width)
    ensures ReadWide(data, off, major, width, least) == Ok(HeadRead(major, n, off + width))
  {
    FromToBytes(n, width);
  }

  /** Reading undoes writing, wherever in the data the head stands. */
  lemma ReadArgInvertsHead(data: bytes, off: nat, major: Major, n: int)
    requires Head(major, n).Ok? && At(data, off, Head(major, n).value)
    ensures ReadArg(data, off) == Ok(HeadRead(major, n, off + |Head(major, n).value|))
  {
    PowValues();
    var h := Head(major, n).value;
    var x := h[0] - major * 32;
    SplitInitialByte(major, x);
    assert data[off] == data[off..off + |h|][0] == h[0];
    if 24 <= n < 0x100 {
      assert data[off + 1] == data[off..off + |h|][1] == n;
    } else if n >= 0x100 {
      var width := |h| - 1;
      assert h == [h[0]] + ToBytes(n, width);
      AtParts(data, off, [h[0]], ToBytes(n, width));
      var least := if width == 2 then 0x100 else if width == 4 then 0x1_0000 else 0x1_0000_0000;
      WideRoundTrip(data, off + 1, major, width, least, n);
      assert ReadArg(data, off) == ReadWide(data, off + 1, major, width, least);
    }
  }

  /** Strictness: a head that is accepted is exactly the head the encoder writes for what was read. */
  lemma HeadInvertsReadArg(data: bytes, off: nat)
    requires ReadArg(data, off).Ok?
    ensures var h := ReadArg(data, off).value;
            h.arg <= UINT64_MAX && Head(h.major, h.arg) == Ok(data[off..h.next])
  {
    hide FromBytes, ToBytes, Pow256;
    PowValues();
    var h := ReadArg(data, off).value;
    var first := data[off];
    var tail := data[off + 1..h.next];
    assert data[off..h.next] == [first] + tail;
    assert first == h.major * 32 + first % 32;
    if first % 32 < 24 {
      assert tail == [] && [first] + tail == [first];
    } else if first % 32 == 24 {
      assert tail == [h.arg] && [first] + tail == [first, h.arg];
    } else {
      ToFromBytes(tail);
      assert h.arg == FromBytes(tail) < Pow256(|tail|);
      assert |tail| == if first % 32 == 25 then 2 else if first % 32 == 26 then 4 else 8;
    }
  }

  /** The bytewise order of encoded keys is the numeric order of the keys. */
  lemma KeyOrder(a: int, b: int)
    requires 0 <= a <= UINT64_MAX && 0 <= b <= UINT64_MAX
    ensures Less(Head(0, a).value, Head(0, b).value) <==> a < b
  {
    PowValues();
    var x, y := Head(0, a).value, Head(0, b).value;
    if x[0] == y[0] && |x| > 1 {
      var width := |x| - 1;
      if width == 1 {
        assert x[1..] == [a] && y[1..] == [b];
        assert Less([a], [b]) <==> a < b;
      } else {
        assert x[1..] == ToBytes(a, width) && y[1..] == ToBytes(b, width);
        FromToBytes(a, width);
        FromToBytes(b, width);
        LessIsNumeric(x[1..], y[1..]);
      }
    } else if x[0] == y[0] {
      assert x[1..] == [] && y[1..] == [];
    }
  }
}
