/** What the codec promises its callers. */
module CborTheorems {
  import opened Bytes
  import opened Results
  import opened Sorting
  import opened CborHead
  import opened CborModel
  import opened CborEncoder
  import opened CborDecoder
  import opened CborRoundTrip
  import Utf8

  // The domain of the encoder

  function Magnitude(n: int): nat {
    if n >= 0 then n else -1 - n
  }

  /** Every node, at every depth, is in the restricted model. */
  predicate Encodable(v: Value, nfc: Nfc)
    decreases v
  {
    match v
    case Int(n) => ByteLength(Magnitude(n)) <= UINT64_MAX
    case Blob(b) => |b| <= UINT64_MAX
    case Text(s) => nfc(s) && |Utf8.Encode(s)| <= UINT64_MAX
    case Array(items) =>
      |items| <= UINT64_MAX && forall i :: 0 <= i < |items| ==> Encodable(items[i], nfc)
    case Map(entries) =>
      && |entries| <= UINT64_MAX && PlainKeys(entries) && DistinctKeys(entries)
      && forall i :: 0 <= i < |entries| ==>
           0 <= KeyNumber(entries[i].key) <= UINT64_MAX && Encodable(entries[i].value, nfc)
    case _ => false
  }

  lemma IntDomain(n: int)
    ensures EncodeInt(n).Ok? <==> ByteLength(Magnitude(n)) <= UINT64_MAX
  {
    hide ByteLength, ToBytes, Pow256;
    HeadDomain(6, 2);
    HeadDomain(6, 3);
    if -UINT64_MAX - 1 <= n <= UINT64_MAX {
      SmallByteLength(Magnitude(n));
    }
  }

  lemma SmallByteLength(n: nat)
    requires n <= UINT64_MAX
    ensures ByteLength(n) <= 8
  {
    PowValues();
    ByteLengthIsMinimal(n);
    if ByteLength(n) > 8 {
      Pow256Monotone(8, ByteLength(n) - 1);
    }
  }

  lemma {:induction false} EncodeDomain(v: Value, nfc: Nfc)
    ensures Encode(v, nfc).Ok? <==> Encodable(v, nfc)
    decreases v
  {
    hide EncodeInt, Head, Sort, Flatten;
    match v
    case Int(n) => IntDomain(n);
    case Blob(b) => HeadDomain(2, |b|);
    case Text(s) => HeadDomain(3, |Utf8.Encode(s)|);
    case Array(items) =>
      HeadDomain(4, |items|);
      EncodeAllDomain(items, nfc);
    case Map(entries) =>
      HeadDomain(5, |entries|);
      EncodeMapDomain(entries, nfc);
    case _ =>
  }

  lemma {:induction false} EncodeAllDomain(items: seq<Value>, nfc: Nfc)
    ensures EncodeAll(items, nfc).Ok? <==> forall i :: 0 <= i < |items| ==> Encodable(items[i], nfc)
    decreases items
  {
    hide Encode, Encodable;
    if items != [] {
      EncodeDomain(items[0], nfc);
      EncodeAllDomain(items[1..], nfc);
      assert items == [items[0]] + items[1..];
    }
  }

  lemma {:induction false} EncodeEntryDomain(e: Entry, nfc: Nfc)
    requires e.key.Num? && e.key.plain
    ensures 0 <= e.key.n <= UINT64_MAX && Encodable(e.value, nfc)
            <==> Head(0, e.key.n).Ok? && Encode(e.value, nfc).Ok?
    decreases e
  {
    HeadDomain(0, e.key.n);
    EncodeDomain(e.value, nfc);
  }

  lemma {:induction false} EncodeMapDomain(entries: seq<Entry>, nfc: Nfc)
    ensures EncodeEntries(entries, {}, nfc).Ok? <==>
            && PlainKeys(entries) && DistinctKeys(entries)
            && forall i :: 0 <= i < |entries| ==>
                 0 <= KeyNumber(entries[i].key) <= UINT64_MAX && Encodable(entries[i].value, nfc)
    decreases entries
  {
    hide Encode, Encodable, Head, EncodeEntries;
    if EncodeEntries(entries, {}, nfc).Ok? {
      var items := EncodeEntries(entries, {}, nfc).value;
      LoopCollects(entries, {}, nfc);
      forall i | 0 <= i < |entries|
        ensures 0 <= KeyNumber(entries[i].key) <= UINT64_MAX && Encodable(entries[i].value, nfc)
      {
        assert EntryEncodes(entries[i], items[i], nfc);
        EncodeEntryDomain(entries[i], nfc);
      }
    }
    if && PlainKeys(entries) && DistinctKeys(entries)
       && forall i :: 0 <= i < |entries| ==>
            0 <= KeyNumber(entries[i].key) <= UINT64_MAX && Encodable(entries[i].value, nfc)
    {
      forall i | 0 <= i < |entries| ensures Head(0, entries[i].key.n).Ok? && Encode(entries[i].value, nfc).Ok? {
        EncodeEntryDomain(entries[i], nfc);
      }
      var items := seq(|entries|, i requires 0 <= i < |entries| =>
        Item(Head(0, entries[i].key.n).value, Encode(entries[i].value, nfc).value));
      LoopSucceeds(entries, items, {}, nfc);
    }
  }

  // Equality of values and their canonical listing

  lemma {:induction false} SameAsCanon(v: Value, nfc: Nfc)
    requires Encodable(v, nfc)
    ensures Same(v, Canon(v))
    decreases v
  {
    match v
    case Array(items) =>
      forall i | 0 <= i < |items| ensures Same(items[i], CanonAll(items)[i]) {
        SameAsCanon(items[i], nfc);
      }
    case Map(entries) =>
      SameAsCanonMap(entries, nfc);
    case _ =>
  }

  ghost predicate EntryEncodable(e: Entry, nfc: Nfc) {
    e.key.Num? && e.key.plain && Encodable(e.value, nfc)
  }

  lemma {:induction false} SameAsCanonEntry(e: Entry, fs: seq<Entry>, nfc: Nfc)
    requires EntryEncodable(e, nfc) && Lookup(fs, e.key) == Some(Canon(e.value))
    ensures AgreesIn(e, fs)
    decreases e
  {
    SameAsCanon(e.value, nfc);
  }

  lemma {:induction false} SameAsCanonMap(entries: seq<Entry>, nfc: Nfc)
    requires Encodable(Map(entries), nfc)
    ensures Same(Map(entries), Canon(Map(entries)))
    decreases entries
  {
    hide AgreesIn, Canon, Lookup;
    var listed := CanonEntries(entries);
    var fs := Sort(listed, KeyBefore);
    SortedEntries(listed);
    forall i | 0 <= i < |entries| ensures AgreesIn(entries[i], fs) {
      assert listed[i] in fs;
      var j :| 0 <= j < |fs| && fs[j] == listed[i];
      LookupMember(fs, j, entries[i].key);
      assert EntryEncodable(entries[i], nfc);
      SameAsCanonEntry(entries[i], fs, nfc);
    }
    forall j | 0 <= j < |fs| ensures Lookup(entries, fs[j].key).Some? {
      assert fs[j] in listed;
      var i :| 0 <= i < |listed| && listed[i] == fs[j];
      LookupMember(entries, i, fs[j].key);
    }
    assert Canon(Map(entries)) == Map(fs) by {
      CanonOfMap(entries);
    }
  }

  lemma CanonOfMap(entries: seq<Entry>)
    ensures Canon(Map(entries)) == Map(Sort(CanonEntries(entries), KeyBefore))
  {
  }

  /** Each entry of `es` has a partner in `fs` when the two maps have one canonical listing. */
  lemma PartnerInCanon(es: seq<Entry>, fs: seq<Entry>, i: int) returns (j: int)
    requires Sort(CanonEntries(es), KeyBefore) == Sort(CanonEntries(fs), KeyBefore) && 0 <= i < |es|
    ensures 0 <= j < |fs| && CanonEntry(es[i]) == CanonEntry(fs[j])
  {
    hide CanonEntry;
    SortMembers(CanonEntries(es), KeyBefore);
    SortMembers(CanonEntries(fs), KeyBefore);
    assert CanonEntries(es)[i] in CanonEntries(es);
    assert CanonEntries(es)[i] in CanonEntries(fs);
    j :| 0 <= j < |fs| && CanonEntries(fs)[j] == CanonEntries(es)[i];
  }

  lemma {:induction false} CanonImpliesSame(v: Value, w: Value, nfc: Nfc)
    requires Encodable(v, nfc) && Encodable(w, nfc) && Canon(v) == Canon(w)
    ensures Same(v, w)
    decreases v
  {
    match v
    case Array(xs) =>
      forall i | 0 <= i < |xs| ensures Same(xs[i], w.items[i]) {
        assert CanonAll(xs)[i] == CanonAll(w.items)[i];
        CanonImpliesSame(xs[i], w.items[i], nfc);
      }
    case Map(es) =>
      CanonImpliesSameMap(es, w.entries, nfc);
    case _ =>
  }

  lemma {:induction false} CanonImpliesAgrees(e: Entry, f: Entry, fs: seq<Entry>, nfc: Nfc)
    requires EntryEncodable(e, nfc) && EntryEncodable(f, nfc) && CanonEntry(e) == CanonEntry(f)
    requires Lookup(fs, e.key) == Some(f.value)
    ensures AgreesIn(e, fs)
    decreases e
  {
    CanonImpliesSame(e.value, f.value, nfc);
  }

  lemma KeyOfCanonEntry(e: Entry, f: Entry)
    requires CanonEntry(e) == CanonEntry(f)
    ensures e.key == f.key
  {
  }

  lemma {:induction false} CanonImpliesSameMap(es: seq<Entry>, fs: seq<Entry>, nfc: Nfc)
    requires Encodable(Map(es), nfc) && Encodable(Map(fs), nfc) && Canon(Map(es)) == Canon(Map(fs))
    ensures Same(Map(es), Map(fs))
    decreases es
  {
    hide AgreesIn, CanonEntry, Lookup;
    forall i | 0 <= i < |es| ensures AgreesIn(es[i], fs) {
      var j := PartnerInCanon(es, fs, i);
      KeyOfCanonEntry(es[i], fs[j]);
      LookupMember(fs, j, es[i].key);
      assert EntryEncodable(es[i], nfc) && EntryEncodable(fs[j], nfc);
      CanonImpliesAgrees(es[i], fs[j], fs, nfc);
    }
    forall j | 0 <= j < |fs| ensures Lookup(es, fs[j].key).Some? {
      var i := PartnerInCanon(fs, es, j);
      KeyOfCanonEntry(fs[j], es[i]);
      LookupMember(es, i, fs[j].key);
    }
  }

  lemma {:induction false} SameImpliesCanon(v: Value, w: Value, nfc: Nfc)
    requires Encodable(v, nfc) && Encodable(w, nfc) && Same(v, w)
    ensures Canon(v) == Canon(w)
    decreases v
  {
    match v
    case Array(xs) =>
      forall i | 0 <= i < |xs| ensures CanonAll(xs)[i] == CanonAll(w.items)[i] {
        SameImpliesCanon(xs[i], w.items[i], nfc);
      }
      assert CanonAll(xs) == CanonAll(w.items);
    case Map(es) =>
      SameImpliesCanonMap(es, w.entries, nfc);
    case _ =>
  }

  lemma {:induction false} AgreesImpliesCanon(e: Entry, f: Entry, fs: seq<Entry>, nfc: Nfc)
    requires EntryEncodable(e, nfc) && EntryEncodable(f, nfc) && SameKey(e.key, f.key)
    requires AgreesIn(e, fs) && Lookup(fs, e.key) == Some(f.value)
    ensures CanonEntry(e) == CanonEntry(f)
    decreases e
  {
    SameImpliesCanon(e.value, f.value, nfc);
  }

  lemma {:induction false} SameImpliesCanonMap(es: seq<Entry>, fs: seq<Entry>, nfc: Nfc)
    requires Encodable(Map(es), nfc) && Encodable(Map(fs), nfc) && Same(Map(es), Map(fs))
    ensures Canon(Map(es)) == Canon(Map(fs))
    decreases es
  {
    hide AgreesIn, Lookup, CanonEntry;
    var a, b := CanonEntries(es), CanonEntries(fs);
    forall i, j | 0 <= i < |es| && 0 <= j < |fs| && SameKey(es[i].key, fs[j].key)
      ensures CanonEntry(es[i]) == CanonEntry(fs[j])
    {
      LookupMember(fs, j, es[i].key);
      assert EntryEncodable(es[i], nfc) && EntryEncodable(fs[j], nfc);
      AgreesImpliesCanon(es[i], fs[j], fs, nfc);
    }
    forall i | 0 <= i < |a| ensures a[i] in b {
      assert Lookup(fs, es[i].key).Some? by {
        AgreesFinds(es[i], fs);
      }
      var j := LookupFinds(fs, es[i].key);
      assert b[j] in b && SameKey(es[i].key, fs[j].key);
    }
    forall j | 0 <= j < |b| ensures b[j] in a {
      var i := LookupFinds(es, fs[j].key);
      assert a[i] in a && SameKey(es[i].key, fs[j].key);
    }
    CanonKeys(es);
    CanonKeys(fs);
    SameMembersOneListing(a, b);
  }

  lemma AgreesFinds(e: Entry, fs: seq<Entry>)
    requires AgreesIn(e, fs)
    ensures Lookup(fs, e.key).Some?
  {
  }

  lemma CanonKeys(es: seq<Entry>)
    requires PlainKeys(es) && DistinctKeys(es)
    ensures PlainKeys(CanonEntries(es)) && DistinctKeys(CanonEntries(es))
  {
  }

  lemma SameMembersOneListing(a: seq<Entry>, b: seq<Entry>)
    requires PlainKeys(a) && DistinctKeys(a) && PlainKeys(b) && DistinctKeys(b)
    requires forall i :: 0 <= i < |a| ==> a[i] in b
    requires forall j :: 0 <= j < |b| ==> b[j] in a
    ensures Sort(a, KeyBefore) == Sort(b, KeyBefore)
  {
    SortedEntries(a);
    SortedEntries(b);
    AscendingUnique(Sort(a, KeyBefore), Sort(b, KeyBefore));
  }

  // The main theorems

  /** Round trip in context: the encoding of `v`, between any prefix and suffix, is read back as `v`. */
  lemma RoundTripInContext(prefix: bytes, v: Value, suffix: bytes, nfc: Nfc)
    requires Encodable(v, nfc)
    ensures Encode(v, nfc).Ok?
    ensures var code := Encode(v, nfc).value;
            var r := DecodeAt(prefix + code + suffix, |prefix|, nfc);
            r.Ok? && r.value.next == |prefix| + |code| && Same(v, r.value.value) && r.value.value == Canon(v)
  {
    EncodeDomain(v, nfc);
    var code := Encode(v, nfc).value;
    var data := prefix + code + suffix;
    assert data[|prefix|..|prefix| + |code|] == code;
    RoundTrip(data, |prefix|, v, nfc);
    EncodeDomain(v, nfc);
    SameAsCanon(v, nfc);
  }

  lemma DecodeOfEncode(v: Value, nfc: Nfc)
    requires Encode(v, nfc).Ok?
    ensures Decode(Encode(v, nfc).value, nfc) == Ok(Canon(v)) && Same(v, Canon(v))
  {
    var code := Encode(v, nfc).value;
    assert code[0..|code|] == code;
    RoundTrip(code, 0, v, nfc);
    EncodeDomain(v, nfc);
    SameAsCanon(v, nfc);
  }

  /** Strictness: decoding yields `v` exactly on the one byte string that `v`, listed canonically, encodes to. */
  lemma DecodeIsExactInverse(data: bytes, v: Value, nfc: Nfc)
    ensures Decode(data, nfc) == Ok(v) <==> Encode(v, nfc) == Ok(data) && Canon(v) == v
  {
    if Decode(data, nfc) == Ok(v) {
      Canonical(data, 0, nfc);
      assert data[0..|data|] == data;
    }
    if Encode(v, nfc) == Ok(data) {
      DecodeOfEncode(v, nfc);
    }
  }

  /** The decoder accepts exactly the image of the encoder. */
  lemma AcceptsExactlyTheImage(data: bytes, nfc: Nfc)
    ensures Decode(data, nfc).Ok? <==> exists v :: Encode(v, nfc) == Ok(data)
    ensures Decode(data, nfc).Ok? ==> Encode(Decode(data, nfc).value, nfc) == Ok(data)
  {
    if Decode(data, nfc).Ok? {
      DecodeIsExactInverse(data, Decode(data, nfc).value, nfc);
    }
    forall v | Encode(v, nfc) == Ok(data) ensures Decode(data, nfc).Ok? {
      DecodeOfEncode(v, nfc);
    }
  }

  /** Injectivity and order independence: two values share an encoding exactly when they are equal. */
  lemma EncodingDecidesEquality(v: Value, w: Value, nfc: Nfc)
    requires Encodable(v, nfc) && Encodable(w, nfc)
    ensures Encode(v, nfc) == Encode(w, nfc) <==> Same(v, w)
  {
    EncodeDomain(v, nfc);
    EncodeDomain(w, nfc);
    DecodeOfEncode(v, nfc);
    DecodeOfEncode(w, nfc);
    if Encode(v, nfc) == Encode(w, nfc) {
      CanonImpliesSame(v, w, nfc);
    }
    if Same(v, w) {
      SameImpliesCanon(v, w, nfc);
      DecodeIsExactInverse(Encode(v, nfc).value, Canon(v), nfc);
      DecodeIsExactInverse(Encode(w, nfc).value, Canon(v), nfc);
    }
  }

  /** No encoding is a proper prefix of another. */
  lemma PrefixFree(v: Value, w: Value, nfc: Nfc)
    requires Encode(v, nfc).Ok? && Encode(w, nfc).Ok?
    requires Encode(v, nfc).value <= Encode(w, nfc).value
    ensures Encode(v, nfc) == Encode(w, nfc) && Same(v, w)
  {
    var a, b := Encode(v, nfc).value, Encode(w, nfc).value;
    assert b[0..|a|] == a && b[0..|b|] == b;
    RoundTrip(b, 0, v, nfc);
    RoundTrip(b, 0, w, nfc);
    assert b[..|a|] == b;
    EncodeDomain(v, nfc);
    EncodeDomain(w, nfc);
    CanonImpliesSame(v, w, nfc);
  }

  /** A concatenation of encodings splits in one way only. */
  lemma {:induction false} UniqueSplit(vs: seq<Value>, ws: seq<Value>, nfc: Nfc)
    requires EncodeAll(vs, nfc).Ok? && EncodeAll(vs, nfc) == EncodeAll(ws, nfc)
    ensures |vs| == |ws| && forall i :: 0 <= i < |vs| ==> Same(vs[i], ws[i])
  {
    hide Encode, DecodeAt, Same;
    if vs == [] || ws == [] {
      if vs != [] {
        EncodeNotEmpty(vs[0], nfc);
      }
      if ws != [] {
        EncodeNotEmpty(ws[0], nfc);
      }
    } else {
      var a, b := Encode(vs[0], nfc).value, Encode(ws[0], nfc).value;
      var restA, restB := EncodeAll(vs[1..], nfc).value, EncodeAll(ws[1..], nfc).value;
      var data := a + restA;
      assert data == b + restB;
      assert data[0..|a|] == a && data[0..|b|] == b;
      RoundTrip(data, 0, vs[0], nfc);
      RoundTrip(data, 0, ws[0], nfc);
      assert |a| == |b|;
      assert restA == data[|a|..] == restB;
      EncodeDomain(vs[0], nfc);
      EncodeDomain(ws[0], nfc);
      CanonImpliesSame(vs[0], ws[0], nfc);
      UniqueSplit(vs[1..], ws[1..], nfc);
      assert forall i :: 1 <= i < |vs| ==> vs[i] == vs[1..][i - 1] && ws[i] == ws[1..][i - 1];
    }
  }

  lemma EncodeNotEmpty(v: Value, nfc: Nfc)
    requires Encode(v, nfc).Ok?
    ensures Encode(v, nfc).value != []
  {
    DecodeOfEncode(v, nfc);
  }

  /** Each integer has one accepted form, and its magnitude decides which: uint, negint or bignum. */
  lemma OneFormPerInteger(n: int, data: bytes, nfc: Nfc)
    ensures Decode(data, nfc) == Ok(Int(n)) <==> EncodeInt(n) == Ok(data)
    ensures Decode(data, nfc) == Ok(Int(n)) ==>
              data != [] &&
              data[0] / 32 == if 0 <= n <= UINT64_MAX then 0 else if -UINT64_MAX - 1 <= n < 0 then 1 else 6
  {
    hide Head;
    DecodeIsExactInverse(data, Int(n), nfc);
    if EncodeInt(n) == Ok(data) {
      HeadDomain(0, n);
      HeadDomain(1, -1 - n);
      HeadDomain(6, 2);
      HeadDomain(6, 3);
    }
  }

  /** A bignum's content is the shortest one: no leading zero byte, and at least nine bytes. */
  lemma BignumContent(n: int)
    requires !(-UINT64_MAX - 1 <= n <= UINT64_MAX)
    ensures var content := ToBytes(Magnitude(n), ByteLength(Magnitude(n)));
            |content| >= 9 && content[0] != 0 && FromBytes(content) == Magnitude(n)
  {
    hide BitLength;
    var mag := Magnitude(n);
    var length := ByteLength(mag);
    ByteLengthIsMinimal(mag);
    FromToBytes(mag, length);
    LeadingByte(ToBytes(mag, length));
    PowValues();
    if length < 9 {
      Pow256Monotone(length, 8);
    }
  }
}
