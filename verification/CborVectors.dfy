/** The byte layout itself, pinned on the vectors of the test suite, most of them from RFC 8949 appendix A. */
module CborVectors {
  import opened Bytes
  import opened Results
  import opened Sorting
  import opened CborHead
  import opened CborModel
  import opened CborEncoder
  import opened CborDecoder
  import opened CborTheorems
  import Utf8

  predicate Gives(r: Result<bytes>, b: bytes) {
    r.Ok? && r.value == b
  }

  lemma ToBytes2(n: nat)
    requires n < 0x1_0000
    ensures ToBytes(n, 2) == [n / 256, n % 256]
  {
    assert ToBytes(n / 256, 1) == ToBytes(n / 256 / 256, 0) + [n / 256 % 256] == [n / 256];
  }

  lemma ToBytes4(n: nat)
    requires n < 0x1_0000_0000
    ensures ToBytes(n, 4) == ToBytes(n / 0x1_0000, 2) + ToBytes(n % 0x1_0000, 2)
  {
    ToBytes2(n / 0x1_0000);
    ToBytes2(n % 0x1_0000);
    assert n / 256 / 256 == n / 0x1_0000;
    assert n / 256 % 256 == n % 0x1_0000 / 256 && n % 256 == n % 0x1_0000 % 256;
    assert ToBytes(n, 4) == ToBytes(n / 256, 3) + [n % 256];
    assert ToBytes(n / 256, 3) == ToBytes(n / 256 / 256, 2) + [n / 256 % 256];
  }

  lemma IntegerVectors()
    ensures Gives(EncodeInt(0), [0x00]) && Gives(EncodeInt(1), [0x01]) && Gives(EncodeInt(10), [0x0A])
    ensures Gives(EncodeInt(23), [0x17]) && Gives(EncodeInt(24), [0x18, 0x18]) && Gives(EncodeInt(25), [0x18, 0x19])
    ensures Gives(EncodeInt(100), [0x18, 0x64]) && Gives(EncodeInt(255), [0x18, 0xFF])
    ensures Gives(EncodeInt(256), [0x19, 0x01, 0x00]) && Gives(EncodeInt(1000), [0x19, 0x03, 0xE8])
    ensures Gives(EncodeInt(1000000), [0x1A, 0x00, 0x0F, 0x42, 0x40])
    ensures Gives(EncodeInt(-1), [0x20]) && Gives(EncodeInt(-10), [0x29]) && Gives(EncodeInt(-100), [0x38, 0x63])
    ensures Gives(EncodeInt(-1000), [0x39, 0x03, 0xE7])
  {
    ToBytes2(256);
    ToBytes2(1000);
    ToBytes2(999);
    ToBytes4(1000000);
    ToBytes2(15);
    ToBytes2(16960);
  }

  /** A head with an eight byte argument, from the number those bytes make. */
  lemma WideHead(major: Major, n: nat, b: bytes)
    requires |b| == 8 && FromBytes(b) == n && n >= 0x1_0000_0000
    ensures Gives(Head(major, n), [major * 32 + 27] + b)
  {
    ToFromBytes(b);
    PowValues();
  }

  lemma NumberOfTrillion(b: bytes)
    requires b == [0x00, 0x00, 0x00, 0xE8, 0xD4, 0xA5, 0x10, 0x00]
    ensures FromBytes(b) == 1_000_000_000_000
  {
    assert b[..7] == [0x00, 0x00, 0x00, 0xE8, 0xD4, 0xA5, 0x10];
    assert b[..7][..6] == b[..6] && b[..6][..5] == b[..5] && b[..5][..4] == b[..4];
    assert b[..4][..3] == b[..3] == [0, 0, 0];
    ZeroNumber(b[..3]);
    assert FromBytes(b[..4]) == 0xE8;
    assert FromBytes(b[..5]) == 0xE8D4;
    assert FromBytes(b[..6]) == 0xE8_D4A5;
    assert FromBytes(b[..7]) == 0xE8D4_A510;
  }

  lemma TrillionVector()
    ensures Gives(EncodeInt(1_000_000_000_000), [0x1B, 0x00, 0x00, 0x00, 0xE8, 0xD4, 0xA5, 0x10, 0x00])
  {
    hide FromBytes, ToBytes, Head;
    var b: bytes := [0x00, 0x00, 0x00, 0xE8, 0xD4, 0xA5, 0x10, 0x00];
    NumberOfTrillion(b);
    WideHead(0, 1_000_000_000_000, b);
    assert [0x1B] + b == [0x1B, 0x00, 0x00, 0x00, 0xE8, 0xD4, 0xA5, 0x10, 0x00];
  }

  lemma BignumVectors()
    ensures Gives(EncodeInt(UINT64_MAX), [0x1B, 0xFF, 0xFF, 0xFF, 0xFF, 0xFF, 0xFF, 0xFF, 0xFF])
    ensures Gives(EncodeInt(UINT64_MAX + 1), [0xC2, 0x49, 0x01, 0, 0, 0, 0, 0, 0, 0, 0])
    ensures Gives(EncodeInt(-UINT64_MAX - 1), [0x3B, 0xFF, 0xFF, 0xFF, 0xFF, 0xFF, 0xFF, 0xFF, 0xFF])
    ensures Gives(EncodeInt(-UINT64_MAX - 2), [0xC3, 0x49, 0x01, 0, 0, 0, 0, 0, 0, 0, 0])
  {
    hide ToBytes, ByteLength;
    var ones: bytes := [0xFF, 0xFF, 0xFF, 0xFF, 0xFF, 0xFF, 0xFF, 0xFF];
    var content: bytes := [0x01, 0, 0, 0, 0, 0, 0, 0, 0];
    NumberOfOnes(ones);
    NumberOfContent(content);
    ToFromBytes(ones);
    ToFromBytes(content);
    MinimalContent(content);
  }

  lemma NumberOfOnes(b: bytes)
    requires b == [0xFF, 0xFF, 0xFF, 0xFF, 0xFF, 0xFF, 0xFF, 0xFF]
    ensures FromBytes(b) == UINT64_MAX
  {
    assert b[..7] == [0xFF, 0xFF, 0xFF, 0xFF, 0xFF, 0xFF, 0xFF];
    assert b[..7][..6] == b[..6] && b[..6][..5] == b[..5] && b[..5][..4] == b[..4];
    assert b[..4][..3] == b[..3] && b[..3][..2] == b[..2] && b[..2][..1] == b[..1] && b[..1][..0] == [];
    assert FromBytes(b[..1]) == 0xFF;
    assert FromBytes(b[..2]) == 0xFFFF;
    assert FromBytes(b[..3]) == 0xFF_FFFF;
    assert FromBytes(b[..4]) == 0xFFFF_FFFF;
    assert FromBytes(b[..5]) == 0xFF_FFFF_FFFF;
    assert FromBytes(b[..6]) == 0xFFFF_FFFF_FFFF;
    assert FromBytes(b[..7]) == 0xFF_FFFF_FFFF_FFFF;
  }

  lemma NumberOfContent(b: bytes)
    requires b == [0x01, 0, 0, 0, 0, 0, 0, 0, 0]
    ensures FromBytes(b) == UINT64_MAX + 1
  {
    FirstByte(b);
    PowValues();
    assert b[1..] == [0, 0, 0, 0, 0, 0, 0, 0];
    ZeroNumber(b[1..]);
  }

  lemma {:induction false} ZeroNumber(b: bytes)
    requires forall i :: 0 <= i < |b| ==> b[i] == 0
    ensures FromBytes(b) == 0
  {
    if b != [] {
      ZeroNumber(b[..|b| - 1]);
    }
  }

  lemma StringVectors(nfc: Nfc)
    requires nfc("") && nfc("a") && nfc("IETF") && nfc("\"\\")
    ensures Gives(Encode(Blob([1, 2, 3, 4]), nfc), [0x44, 1, 2, 3, 4]) && Gives(Encode(Blob([]), nfc), [0x40])
    ensures Gives(Encode(Text(""), nfc), [0x60]) && Gives(Encode(Text("a"), nfc), [0x61, 0x61])
    ensures Gives(Encode(Text("IETF"), nfc), [0x64, 0x49, 0x45, 0x54, 0x46])
    ensures Gives(Encode(Text("\"\\"), nfc), [0x62, 0x22, 0x5C])
  {
    assert "IETF"[1..] == "ETF" && "ETF"[1..] == "TF" && "TF"[1..] == "F" && "F"[1..] == "" && "a"[1..] == "";
    assert "\"\\"[1..] == "\\" && "\\"[1..] == "";
    assert Utf8.Encode("a") == [0x61] && Utf8.Encode("F") == [0x46] && Utf8.Encode("\\") == [0x5C];
    assert Utf8.Encode("TF") == [0x54, 0x46];
    assert Utf8.Encode("ETF") == [0x45, 0x54, 0x46];
    assert Utf8.Encode("IETF") == [0x49, 0x45, 0x54, 0x46];
    assert Utf8.Encode("\"\\") == [0x22, 0x5C];
  }

  /** The items of an array, one more in front. */
  lemma OneMore(v: Value, rest: seq<Value>, nfc: Nfc, first: bytes, others: bytes)
    requires Gives(Encode(v, nfc), first) && Gives(EncodeAll(rest, nfc), others)
    ensures Gives(EncodeAll([v] + rest, nfc), first + others)
  {
    hide Encode;
    assert ([v] + rest)[1..] == rest;
  }

  /** The array of two small ints. */
  lemma PairVector(m: int, n: int, nfc: Nfc)
    requires 0 <= m < 24 && 0 <= n < 24
    ensures Gives(EncodeAll([Int(n)], nfc), [n]) && Gives(EncodeAll([Int(m), Int(n)], nfc), [m, n])
    ensures Gives(Encode(Array([Int(m), Int(n)]), nfc), [0x82, m, n])
  {
    OneMore(Int(n), [], nfc, [n], []);
    assert [Int(n)] + [] == [Int(n)];
    OneMore(Int(m), [Int(n)], nfc, [m], [n]);
    assert [Int(m)] + [Int(n)] == [Int(m), Int(n)];
  }

  lemma ArrayVectors(nfc: Nfc)
    ensures Gives(Encode(Array([]), nfc), [0x80])
    ensures Gives(Encode(Array([Int(1), Int(2), Int(3)]), nfc), [0x83, 0x01, 0x02, 0x03])
    ensures Gives(Encode(Array([Int(1), Array([Int(2), Int(3)]), Array([Int(4), Int(5)])]), nfc),
                  [0x83, 0x01, 0x82, 0x02, 0x03, 0x82, 0x04, 0x05])
  {
    PairVector(2, 3, nfc);
    PairVector(4, 5, nfc);
    OneMore(Int(1), [Int(2), Int(3)], nfc, [0x01], [0x02, 0x03]);
    assert [Int(1)] + [Int(2), Int(3)] == [Int(1), Int(2), Int(3)];
    var left, right := Array([Int(2), Int(3)]), Array([Int(4), Int(5)]);
    OneMore(right, [], nfc, [0x82, 0x04, 0x05], []);
    assert [right] + [] == [right];
    OneMore(left, [right], nfc, [0x82, 0x02, 0x03], [0x82, 0x04, 0x05]);
    assert [left] + [right] == [left, right];
    OneMore(Int(1), [left, right], nfc, [0x01], [0x82, 0x02, 0x03, 0x82, 0x04, 0x05]);
    assert [Int(1)] + [left, right] == [Int(1), left, right];
  }

  /** A map of two keys given out of order comes out with the smaller key first. */
  lemma OutOfOrder(m: int, v: Value, n: int, u: Value, nfc: Nfc, a: Item, b: Item)
    requires n < m && Gives(Head(0, m), a.key) && Gives(Head(0, n), b.key)
    requires Gives(Encode(v, nfc), a.value) && Gives(Encode(u, nfc), b.value)
    ensures Gives(Encode(Map([Entry(Num(m, true), v), Entry(Num(n, true), u)]), nfc),
                  [0xA2] + (b.key + b.value + (a.key + a.value)))
  {
    var first, second := Entry(Num(m, true), v), Entry(Num(n, true), u);
    HeadDomain(0, m);
    HeadDomain(0, n);
    KeyOrder(n, m);
    KeyOrder(m, n);
    TwoItems(first, second, nfc, a, b);
    hide Less, Head;
    assert ItemBefore(b, a) && !ItemBefore(a, b);
    assert [a, b][1..] == [b] && [b][1..] == [];
    assert Sort([b], ItemBefore) == Insert(b, [], ItemBefore) == [b];
    assert Insert(a, [b], ItemBefore) == [b] + Insert(a, [], ItemBefore);
    assert Sort([a, b], ItemBefore) == [b, a];
    assert [b, a][1..] == [a] && [a][1..] == [];
    assert Flatten([a]) == a.key + a.value + [] == a.key + a.value;
    assert Flatten([b, a]) == b.key + b.value + (a.key + a.value);
    PairHead(Flatten([b, a]));
  }

  lemma PairHead(body: bytes)
    ensures Prefixed(5, 2, body) == Ok([0xA2] + body)
  {
  }

  lemma TwoItems(first: Entry, second: Entry, nfc: Nfc, a: Item, b: Item)
    requires EncodeEntry(first, {}, nfc) == Ok(a) && EncodeEntry(second, {KeyNumber(first.key)}, nfc) == Ok(b)
    ensures EncodeEntries([first, second], {}, nfc) == Ok([a, b])
  {
    hide EncodeEntry;
    assert [first, second][1..] == [second] && [second][1..] == [];
    assert {} + {KeyNumber(first.key)} == {KeyNumber(first.key)};
    assert EncodeEntries([second], {KeyNumber(first.key)}, nfc) == Ok([b] + []);
    assert [b] + [] == [b] && [a] + [b] == [a, b];
  }

  lemma OneEntryMap(n: int, v: Value, nfc: Nfc, b: bytes)
    requires 0 <= n < 24 && Gives(Encode(v, nfc), b)
    ensures Gives(Encode(Map([Entry(Num(n, true), v)]), nfc), [0xA1, n] + b)
  {
    var item := Item([n], b);
    var e := Entry(Num(n, true), v);
    assert [e][1..] == [] && [item][1..] == [];
    assert EncodeEntry(e, {}, nfc) == Ok(item);
    assert EncodeEntries([e], {}, nfc) == Ok([item] + []);
    assert [item] + [] == [item];
    assert Sort([item], ItemBefore) == Insert(item, [], ItemBefore) == [item];
    assert Flatten([item]) == [n] + b + [];
    assert [0xA1] + ([n] + b + []) == [0xA1, n] + b;
  }

  lemma MapVectors(nfc: Nfc)
    ensures Gives(Encode(Map([Entry(Num(3, true), Int(4)), Entry(Num(1, true), Int(2))]), nfc),
                  [0xA2, 0x01, 0x02, 0x03, 0x04])
    ensures Gives(Encode(Map([Entry(Num(256, true), Int(0)), Entry(Num(1, true), Int(0))]), nfc),
                  [0xA2, 0x01, 0x00, 0x19, 0x01, 0x00, 0x00])
    ensures Gives(Encode(Map([Entry(Num(1, true), Map([Entry(Num(2, true), Int(3))]))]), nfc),
                  [0xA1, 0x01, 0xA1, 0x02, 0x03])
  {
    IntegerVectors();
    OutOfOrder(3, Int(4), 1, Int(2), nfc, Item([0x03], [0x04]), Item([0x01], [0x02]));
    OutOfOrder(256, Int(0), 1, Int(0), nfc, Item([0x19, 0x01, 0x00], [0x00]), Item([0x01], [0x00]));
    OneEntryMap(2, Int(3), nfc, [0x03]);
    OneEntryMap(1, Map([Entry(Num(2, true), Int(3))]), nfc, [0xA1, 0x02, 0x03]);
  }

  /** Both directions, for every vector above: what gives these bytes is read back from them, maps in key order. */
  lemma VectorsDecode(v: Value, nfc: Nfc, data: bytes)
    requires Gives(Encode(v, nfc), data)
    ensures Decode(data, nfc) == Ok(Canon(v)) && Encode(Canon(v), nfc) == Ok(data)
  {
    hide Encode, Decode, Canon;
    DecodeOfEncode(v, nfc);
    AcceptsExactlyTheImage(data, nfc);
  }
}
