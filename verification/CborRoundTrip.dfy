/** The two inductions behind the codec: decoding undoes encoding, and encoding undoes decoding. */
module CborRoundTrip {
  import opened Bytes
  import opened Results
  import opened Sorting
  import opened CborHead
  import opened CborModel
  import opened CborEncoder
  import opened CborDecoder
  import Utf8

  ghost predicate EntryEncodes(e: Entry, item: Item, nfc: Nfc) {
    e.key.Num? && e.key.plain && Head(0, e.key.n) == Ok(item.key) && Encode(e.value, nfc) == Ok(item.value)
  }

  ghost predicate KeysUnseen(entries: seq<Entry>, seen: set<int>) {
    forall i :: 0 <= i < |entries| ==> KeyNumber(entries[i].key) !in seen
  }

  /** What the first loop of `_encode_map` leaves behind when it raises nothing. */
  lemma {:induction false} LoopCollects(entries: seq<Entry>, seen: set<int>, nfc: Nfc)
    requires EncodeEntries(entries, seen, nfc).Ok?
    ensures Related(entries, EncodeEntries(entries, seen, nfc).value, (e, item) => EntryEncodes(e, item, nfc))
    ensures PlainKeys(entries) && DistinctKeys(entries) && KeysUnseen(entries, seen)
    decreases entries
  {
    if entries != [] {
      LoopCollects(entries[1..], seen + {KeyNumber(entries[0].key)}, nfc);
    }
  }

  /** And it raises nothing when every entry encodes and no key comes twice. */
  lemma {:induction false} LoopSucceeds(entries: seq<Entry>, items: seq<Item>, seen: set<int>, nfc: Nfc)
    requires Related(entries, items, (e, item) => EntryEncodes(e, item, nfc))
    requires DistinctKeys(entries) && KeysUnseen(entries, seen)
    ensures EncodeEntries(entries, seen, nfc) == Ok(items)
    decreases entries
  {
    if entries != [] {
      assert EntryEncodes(entries[0], items[0], nfc);
      LoopSucceeds(entries[1..], items[1..], seen + {KeyNumber(entries[0].key)}, nfc);
      assert [items[0]] + items[1..] == items;
    }
  }

  // Decoding undoes encoding

  lemma BignumRoundTrip(data: bytes, off: nat, n: int, nfc: Nfc)
    requires off <= |data| && !(-UINT64_MAX - 1 <= n <= UINT64_MAX)
    requires EncodeBignum(n).Ok? && At(data, off, EncodeBignum(n).value)
    ensures DecodeAt(data, off, nfc) == Ok(Read(Int(n), off + |EncodeBignum(n).value|))
  {
    hide ReadArg, ToBytes, DecodeLeaf, Head;
    var (tag, mag) := if n >= 0 then (2, n) else (3, -1 - n);
    var content := ToBytes(mag, ByteLength(mag));
    var tagHead, lengthHead := Head(6, tag).value, Head(2, |content|).value;
    AtParts(data, off, tagHead + lengthHead, content);
    AtParts(data, off, tagHead, lengthHead);
    ReadArgInvertsHead(data, off, 6, tag);
    ReadArgInvertsHead(data, off + |tagHead|, 2, |content|);
    ByteLengthIsMinimal(mag);
    FromToBytes(mag, |content|);
    LeadingByte(content);
  }

  lemma IntRoundTrip(data: bytes, off: nat, n: int, nfc: Nfc)
    requires off <= |data| && EncodeInt(n).Ok? && At(data, off, EncodeInt(n).value)
    ensures DecodeAt(data, off, nfc) == Ok(Read(Int(n), off + |EncodeInt(n).value|))
  {
    hide ReadArg, Head;
    if 0 <= n <= UINT64_MAX {
      ReadArgInvertsHead(data, off, 0, n);
    } else if -UINT64_MAX - 1 <= n < 0 {
      ReadArgInvertsHead(data, off, 1, -1 - n);
    } else {
      BignumRoundTrip(data, off, n, nfc);
    }
  }

  lemma StringRoundTrip(data: bytes, off: nat, v: Value, nfc: Nfc)
    requires off <= |data| && (v.Blob? || v.Text?)
    requires Encode(v, nfc).Ok? && At(data, off, Encode(v, nfc).value)
    ensures DecodeAt(data, off, nfc) == Ok(Read(v, off + |Encode(v, nfc).value|))
  {
    hide ReadArg, Head, Utf8.Encode, Utf8.Decode;
    if v.Blob? {
      PrefixedParts(data, off, 2, |v.b|, v.b);
    } else {
      var raw := Utf8.Encode(v.s);
      PrefixedParts(data, off, 3, |raw|, raw);
      Utf8.DecodeInvertsEncode(v.s);
    }
  }

  /** The encoding of `v`, wherever it stands, is read as `v` itself up to the order of its dicts. */
  lemma {:induction false} RoundTrip(data: bytes, off: nat, v: Value, nfc: Nfc)
    requires off <= |data|
    requires Encode(v, nfc).Ok? && At(data, off, Encode(v, nfc).value)
    ensures DecodeAt(data, off, nfc) == Ok(Read(Canon(v), off + |Encode(v, nfc).value|))
    decreases v
  {
    hide DecodeAt, EncodeInt;
    match v
    case Int(n) => IntRoundTrip(data, off, n, nfc);
    case Blob(b) => StringRoundTrip(data, off, v, nfc);
    case Text(s) => StringRoundTrip(data, off, v, nfc);
    case Array(items) => RoundTripArray(data, off, items, nfc);
    case Map(entries) => RoundTripMap(data, off, entries, nfc);
    case _ =>
  }

  lemma {:induction false} RoundTripArray(data: bytes, off: nat, items: seq<Value>, nfc: Nfc)
    requires off <= |data|
    requires Encode(Array(items), nfc).Ok? && At(data, off, Encode(Array(items), nfc).value)
    ensures DecodeAt(data, off, nfc) == Ok(Read(Canon(Array(items)), off + |Encode(Array(items), nfc).value|))
    decreases items, 1
  {
    hide ReadArg, Head, EncodeAll, DecodeAll, CanonAll;
    var body := EncodeAll(items, nfc).value;
    PrefixedParts(data, off, 4, |items|, body);
    RoundTripAll(data, off + |Head(4, |items|).value|, items, nfc);
  }

  lemma PrefixedParts(data: bytes, off: nat, major: Major, count: nat, body: bytes)
    requires Prefixed(major, count, body).Ok? && At(data, off, Prefixed(major, count, body).value)
    ensures var next := off + |Head(major, count).value|;
            ReadArg(data, off) == Ok(HeadRead(major, count, next)) && At(data, next, body)
  {
    AtParts(data, off, Head(major, count).value, body);
    ReadArgInvertsHead(data, off, major, count);
  }

  lemma {:induction false} RoundTripAll(data: bytes, off: nat, items: seq<Value>, nfc: Nfc)
    requires off <= |data|
    requires EncodeAll(items, nfc).Ok? && At(data, off, EncodeAll(items, nfc).value)
    ensures DecodeAll(data, off, |items|, nfc) == Ok(Read(CanonAll(items), off + |EncodeAll(items, nfc).value|))
    decreases items, 0
  {
    hide DecodeAt, Encode;
    if items != [] {
      var first := Encode(items[0], nfc).value;
      AtParts(data, off, first, EncodeAll(items[1..], nfc).value);
      RoundTrip(data, off, items[0], nfc);
      RoundTripAll(data, off + |first|, items[1..], nfc);
    }
  }

  /** Wherever the item's value bytes stand in `data`, the decoder reads the entry's value there. */
  ghost predicate EntryDecodes(data: bytes, e: Entry, item: Item, nfc: Nfc) {
    && e.key.Num? && e.key.plain && Head(0, e.key.n) == Ok(item.key)
    && forall off: nat :: At(data, off, item.value) && off <= |data| ==>
         DecodeAt(data, off, nfc) == Ok(Read(e.value, off + |item.value|))
  }

  lemma SortsAgree(data: bytes, nfc: Nfc)
    ensures AgreeOnOrder(KeyBefore, ItemBefore, (e, item) => EntryDecodes(data, e, item, nfc))
  {
    forall e, item, e', item' | EntryDecodes(data, e, item, nfc) && EntryDecodes(data, e', item', nfc)
      ensures KeyBefore(e, e') <==> ItemBefore(item, item')
    {
      KeyOrder(e.key.n, e'.key.n);
    }
  }

  /** The encoder's sort of items by key bytes and the sort of entries by key line up. */
  lemma SortTogether(data: bytes, entries: seq<Entry>, items: seq<Item>, nfc: Nfc)
    requires AllDecode(data, entries, items, nfc)
    ensures AllDecode(data, Sort(entries, KeyBefore), Sort(items, ItemBefore), nfc)
  {
    var rel := (e, item) => EntryDecodes(data, e, item, nfc);
    SortsAgree(data, nfc);
    assert Related(entries, items, rel);
    SortRelated(entries, items, KeyBefore, ItemBefore, rel);
    var es, its := Sort(entries, KeyBefore), Sort(items, ItemBefore);
    forall i | 0 <= i < |its| ensures EntryDecodes(data, es[i], its[i], nfc) {
      assert rel(es[i], its[i]);
    }
  }

  lemma {:induction false} RoundTripMap(data: bytes, off: nat, entries: seq<Entry>, nfc: Nfc)
    requires off <= |data|
    requires Encode(Map(entries), nfc).Ok? && At(data, off, Encode(Map(entries), nfc).value)
    ensures DecodeAt(data, off, nfc) == Ok(Read(Canon(Map(entries)), off + |Encode(Map(entries), nfc).value|))
    decreases entries
  {
    hide ReadArg, Head, EncodeEntries, DecodeEntries, Flatten, Sort, Less, DistinctKeys, AscendingKeys;
    var items := EncodeEntries(entries, {}, nfc).value;
    var canon := CanonEntries(entries);
    LoopCollects(entries, {}, nfc);
    forall i | 0 <= i < |entries| ensures EntryDecodes(data, canon[i], items[i], nfc) {
      assert EntryEncodes(entries[i], items[i], nfc);
      RoundTripEntry(data, entries[i], items[i], nfc);
    }
    var sorted := Sort(items, ItemBefore);
    SortTogether(data, canon, items, nfc);
    SortedEntries(canon);
    PrefixedParts(data, off, 5, |items|, Flatten(sorted));
    DecodeSorted(data, off + |Head(5, |items|).value|, Sort(canon, KeyBefore), sorted, None, -1, nfc);
  }

  lemma {:induction false} RoundTripEntry(data: bytes, e: Entry, item: Item, nfc: Nfc)
    requires EntryEncodes(e, item, nfc)
    ensures EntryDecodes(data, CanonEntry(e), item, nfc)
    decreases e
  {
    hide DecodeAt, Encode, Head, Canon;
    forall off: nat | At(data, off, item.value) && off <= |data|
      ensures DecodeAt(data, off, nfc) == Ok(Read(Canon(e.value), off + |item.value|))
    {
      RoundTrip(data, off, e.value, nfc);
    }
  }

  ghost predicate AllDecode(data: bytes, entries: seq<Entry>, items: seq<Item>, nfc: Nfc) {
    |entries| == |items| && forall i :: 0 <= i < |items| ==> EntryDecodes(data, entries[i], items[i], nfc)
  }

  /** A key that stands in the data after `prev` is read as that key. */
  lemma KeyRoundTrip(data: bytes, off: nat, n: int, prev: Option<bytes>, last: int)
    requires Head(0, n).Ok? && At(data, off, Head(0, n).value)
    requires prev.Some? ==> 0 <= last < n && Head(0, last) == Ok(prev.value)
    ensures var key := Head(0, n).value;
            DecodeKey(data, off, prev) == Ok(HeadRead(0, n, off + |key|)) && data[off..off + |key|] == key
  {
    ReadArgInvertsHead(data, off, 0, n);
    if prev.Some? {
      KeyOrder(last, n);
    }
  }

  lemma KeyIsPlain(data: bytes, e: Entry, item: Item, nfc: Nfc)
    requires EntryDecodes(data, e, item, nfc)
    ensures e.key.Num? && e.key.plain
  {
  }

  lemma FirstEntry(data: bytes, off: nat, e: Entry, item: Item, rest: bytes, prev: Option<bytes>, last: int, nfc: Nfc)
      returns (key: HeadRead, first: Read<Value>)
    requires e.key.Num? && off <= |data| && At(data, off, item.key + item.value + rest)
    requires EntryDecodes(data, e, item, nfc)
    requires prev.Some? ==> 0 <= last < e.key.n && Head(0, last) == Ok(prev.value)
    ensures e.key == Num(e.key.n, true) && e.key.n >= 0 && Head(0, e.key.n) == Ok(item.key)
    ensures key == HeadRead(0, e.key.n, off + |item.key|) && first == Read(e.value, off + |item.key| + |item.value|)
    ensures first.next <= |data| && At(data, first.next, rest) && data[off..key.next] == item.key
    ensures DecodeKey(data, off, prev) == Ok(key) && DecodeAt(data, key.next, nfc) == Ok(first)
  {
    hide DecodeAt, DecodeKey, Head, Canon;
    AtParts(data, off, item.key + item.value, rest);
    AtParts(data, off, item.key, item.value);
    KeyRoundTrip(data, off, e.key.n, prev, last);
    key := HeadRead(0, e.key.n, off + |item.key|);
    first := Read(e.value, off + |item.key| + |item.value|);
  }

  lemma EntriesStep(data: bytes, off: nat, count: nat, prev: Option<bytes>, key: HeadRead, first: Read<Value>,
      rest: Read<seq<Entry>>, nfc: Nfc)
    requires off <= |data| && count > 0
    requires DecodeKey(data, off, prev) == Ok(key) && DecodeAt(data, key.next, nfc) == Ok(first)
    requires DecodeEntries(data, first.next, count - 1, Some(data[off..key.next]), nfc) == Ok(rest)
    ensures DecodeEntries(data, off, count, prev, nfc)
            == Ok(Read([Entry(Num(key.arg, true), first.value)] + rest.value, rest.next))
  {
  }

  lemma {:induction false} DecodeSorted(data: bytes, off: nat, entries: seq<Entry>, items: seq<Item>,
      prev: Option<bytes>, last: int, nfc: Nfc)
    requires off <= |data| && At(data, off, Flatten(items))
    requires AllDecode(data, entries, items, nfc)
    requires AscendingKeys(entries)
    requires prev.Some? ==> 0 <= last && Head(0, last) == Ok(prev.value)
    requires prev.Some? && entries != [] ==> last < KeyNumber(entries[0].key)
    ensures DecodeEntries(data, off, |entries|, prev, nfc) == Ok(Read(entries, off + |Flatten(items)|))
    decreases entries
  {
    hide DecodeAt, DecodeKey, Head, At, EntryDecodes;
    if entries != [] {
      var e, item := entries[0], items[0];
      var rest := Flatten(items[1..]);
      assert EntryDecodes(data, e, item, nfc);
      KeyIsPlain(data, e, item, nfc);
      var key, first := FirstEntry(data, off, e, item, rest, prev, last, nfc);
      DecodeSorted(data, first.next, entries[1..], items[1..], Some(item.key), e.key.n, nfc);
      EntriesStep(data, off, |entries|, prev, key, first, Read(entries[1..], first.next + |rest|), nfc);
      assert [e] + entries[1..] == entries;
    }
  }

  // Encoding undoes decoding

  /** A magnitude without a leading zero, under the tag for its sign, is what the encoder writes. */
  lemma MagnitudeCanonical(tag: int, content: bytes, lengthHead: bytes)
    requires tag == 2 || tag == 3
    requires content != [] && content[0] != 0 && Head(2, |content|) == Ok(lengthHead)
    ensures var mag := FromBytes(content);
            EncodeBignum(if tag == 2 then mag else -1 - mag) == Ok(Head(6, tag).value + lengthHead + content)
  {
    hide FromBytes, ToBytes, ByteLength, Pow256, Head;
    MinimalContent(content);
    ToFromBytes(content);
    HeadDomain(6, tag);
  }

  lemma BignumCanonical(data: bytes, tag: int, off: nat, nfc: Nfc)
    requires DecodeBignum(data, tag, off).Ok?
    ensures var r := DecodeBignum(data, tag, off).value;
            r.value.Int? && Head(6, tag).Ok? && Encode(r.value, nfc) == Ok(Head(6, tag).value + data[off..r.next])
  {
    hide ReadArg, ToBytes, Head, ByteLength, EncodeBignum;
    var h := ReadArg(data, off).value;
    var r := DecodeBignum(data, tag, off).value;
    var content := data[h.next..r.next];
    HeadInvertsReadArg(data, off);
    HeadDomain(6, tag);
    assert FromBytes([]) == 0;
    assert content != [];
    MagnitudeCanonical(tag, content, data[off..h.next]);
    assert data[off..r.next] == data[off..h.next] + content;
    assert Head(6, tag).value + data[off..h.next] + content == Head(6, tag).value + data[off..r.next];
  }

  lemma LeafCanonical(data: bytes, off: nat, nfc: Nfc)
    requires ReadArg(data, off).Ok? && DecodeLeaf(data, ReadArg(data, off).value, nfc).Ok?
    ensures var r := DecodeLeaf(data, ReadArg(data, off).value, nfc).value;
            Encode(r.value, nfc) == Ok(data[off..r.next]) && Canon(r.value) == r.value
  {
    hide ReadArg, Head, EncodeBignum, Utf8.Encode, Utf8.Decode;
    var h := ReadArg(data, off).value;
    var r := DecodeLeaf(data, h, nfc).value;
    HeadInvertsReadArg(data, off);
    assert data[off..r.next] == data[off..h.next] + data[h.next..r.next];
    if h.major == 3 {
      Utf8.EncodeInvertsDecode(data[h.next..r.next]);
    }
  }

  lemma {:induction false} Canonical(data: bytes, off: nat, nfc: Nfc)
    requires off <= |data| && DecodeAt(data, off, nfc).Ok?
    ensures var r := DecodeAt(data, off, nfc).value;
            Encode(r.value, nfc) == Ok(data[off..r.next]) && Canon(r.value) == r.value
    decreases |data| - off, 0
  {
    var h := ReadArg(data, off).value;
    var r := DecodeAt(data, off, nfc).value;
    HeadInvertsReadArg(data, off);
    assert data[off..r.next] == data[off..h.next] + data[h.next..r.next];
    if h.major == 4 {
      CanonicalAll(data, h.next, h.arg, nfc);
    } else if h.major == 5 {
      CanonicalMap(data, off, nfc);
    } else if h.major == 6 {
      BignumCanonical(data, h.arg, h.next, nfc);
    } else {
      LeafCanonical(data, off, nfc);
    }
  }

  lemma {:induction false} CanonicalAll(data: bytes, off: nat, count: nat, nfc: Nfc)
    requires off <= |data| && DecodeAll(data, off, count, nfc).Ok?
    ensures var r := DecodeAll(data, off, count, nfc).value;
            EncodeAll(r.value, nfc) == Ok(data[off..r.next]) && CanonAll(r.value) == r.value
    decreases |data| - off, 1
  {
    hide DecodeAt, Encode;
    if count == 0 {
      assert data[off..off] == [];
    } else {
      var r := DecodeAll(data, off, count, nfc).value;
      var first := DecodeAt(data, off, nfc).value;
      var rest := DecodeAll(data, first.next, count - 1, nfc).value;
      Canonical(data, off, nfc);
      CanonicalAll(data, first.next, count - 1, nfc);
      assert r.value == [first.value] + rest.value && r.value[1..] == rest.value && r.next == rest.next;
      assert data[off..r.next] == data[off..first.next] + data[first.next..r.next];
      assert CanonAll(r.value) == [Canon(first.value)] + CanonAll(rest.value);
    }
  }

  lemma ItemsAreSorted(entries: seq<Entry>, items: seq<Item>, nfc: Nfc)
    requires Related(entries, items, (e, item) => EntryEncodes(e, item, nfc)) && AscendingKeys(entries)
    ensures Sorted(items, ItemBefore)
  {
    forall i, j | 0 <= i < j < |items| ensures !ItemBefore(items[j], items[i]) {
      assert EntryEncodes(entries[i], items[i], nfc) && EntryEncodes(entries[j], items[j], nfc);
      KeyOrder(entries[j].key.n, entries[i].key.n);
    }
  }

  lemma {:induction false} CanonicalMap(data: bytes, off: nat, nfc: Nfc)
    requires off <= |data| && DecodeAt(data, off, nfc).Ok? && ReadArg(data, off).value.major == 5
    ensures var r := DecodeAt(data, off, nfc).value;
            Encode(r.value, nfc) == Ok(data[off..r.next]) && Canon(r.value) == r.value
    decreases |data| - off, 0, 0
  {
    hide ReadArg, Head, EncodeEntries, DecodeEntries, Flatten, Sort, Less;
    var h := ReadArg(data, off).value;
    var r := DecodeAt(data, off, nfc).value;
    HeadInvertsReadArg(data, off);
    var entries := r.value.entries;
    var items := CanonicalEntries(data, h.next, h.arg, None, -1, nfc);
    LoopSucceeds(entries, items, {}, nfc);
    ItemsAreSorted(entries, items, nfc);
    SortedIsFixed(items, ItemBefore);
    SortedIsFixed(entries, KeyBefore);
    assert data[off..r.next] == data[off..h.next] + data[h.next..r.next];
  }

  lemma {:induction false} CanonicalEntries(data: bytes, off: nat, count: nat, prev: Option<bytes>, last: int, nfc: Nfc)
      returns (items: seq<Item>)
    requires off <= |data| && DecodeEntries(data, off, count, prev, nfc).Ok?
    requires if prev.Some? then 0 <= last <= UINT64_MAX && Head(0, last) == Ok(prev.value) else last == -1
    ensures var r := DecodeEntries(data, off, count, prev, nfc).value;
            && Related(r.value, items, (e, item) => EntryEncodes(e, item, nfc))
            && Flatten(items) == data[off..r.next]
            && AscendingKeys(r.value) && DistinctKeys(r.value)
            && (forall e :: e in r.value ==> last < KeyNumber(e.key))
            && CanonEntries(r.value) == r.value
    decreases |data| - off, 1
  {
    hide DecodeAt, DecodeKey, Encode, Head, Canon;
    items := [];
    if count > 0 {
      hide Related;
      var r := DecodeEntries(data, off, count, prev, nfc).value;
      var key := DecodeKey(data, off, prev).value;
      var first := DecodeAt(data, key.next, nfc).value;
      var keyBytes := data[off..key.next];
      var e := Entry(Num(key.arg, true), first.value);
      var rest := DecodeEntries(data, first.next, count - 1, Some(keyBytes), nfc).value;
      KeyCanonical(data, off, prev, last);
      Canonical(data, key.next, nfc);
      var tail := CanonicalEntries(data, first.next, count - 1, Some(keyBytes), key.arg, nfc);
      items := [Item(keyBytes, data[key.next..first.next])] + tail;
      assert r == Read([e] + rest.value, rest.next);
      assert EntryEncodes(e, items[0], nfc);
      assert data[off..r.next] == keyBytes + data[key.next..first.next] + data[first.next..r.next];
      assert items[1..] == tail && r.value[1..] == rest.value;
      ConsAscending(e, rest.value, last);
      ConsRelated(e, rest.value, items[0], tail, (e, item) => EntryEncodes(e, item, nfc));
      assert CanonEntries(r.value) == [CanonEntry(e)] + CanonEntries(rest.value);
    }
  }

  lemma KeyCanonical(data: bytes, off: nat, prev: Option<bytes>, last: int)
    requires DecodeKey(data, off, prev).Ok?
    requires if prev.Some? then 0 <= last <= UINT64_MAX && Head(0, last) == Ok(prev.value) else last == -1
    ensures var key := DecodeKey(data, off, prev).value;
            last < key.arg <= UINT64_MAX && Head(0, key.arg) == Ok(data[off..key.next])
  {
    HeadInvertsReadArg(data, off);
    if prev.Some? {
      KeyOrder(last, DecodeKey(data, off, prev).value.arg);
    }
  }

  lemma ConsRelated<A, B>(x: A, a: seq<A>, y: B, b: seq<B>, rel: (A, B) -> bool)
    requires rel(x, y) && Related(a, b, rel)
    ensures Related([x] + a, [y] + b, rel)
  {
  }

  lemma ConsAscending(e: Entry, rest: seq<Entry>, last: int)
    requires AscendingKeys(rest) && DistinctKeys(rest) && last < KeyNumber(e.key) && e.key.Num?
    requires forall f :: f in rest ==> KeyNumber(e.key) < KeyNumber(f.key)
    ensures AscendingKeys([e] + rest) && DistinctKeys([e] + rest)
    ensures forall f :: f in [e] + rest ==> last < KeyNumber(f.key)
  {
    forall j | 0 <= j < |rest| ensures KeyNumber(e.key) < KeyNumber(rest[j].key) {
      assert rest[j] in rest;
    }
  }
}
