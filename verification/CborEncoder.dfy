/** The deterministic CBOR encoder (RFC 8949 sections 3.4.3 and 4.2.1). */
module CborEncoder {
  import opened Bytes
  import opened Results
  import opened Sorting
  import opened CborHead
  import opened CborModel
  import Utf8

  /** One encoded map entry, `(ek, ev)`. */
  datatype Item = Item(key: bytes, value: bytes)

  /** `_encode_bignum`. */
  function EncodeBignum(n: int): Result<bytes> {
    var (tag, mag) := if n >= 0 then (2, n) else (3, -1 - n);
    var content := ToBytes(mag, ByteLength(mag));
    var tagHead :- Head(6, tag);
    var lengthHead :- Head(2, |content|);
    Ok(tagHead + lengthHead + content)
  }

  /** `_encode_int`. */
  function EncodeInt(n: int): Result<bytes> {
    if 0 <= n <= UINT64_MAX then Head(0, n)
    else if -UINT64_MAX - 1 <= n < 0 then Head(1, -1 - n)
    else EncodeBignum(n)
  }

  function Prefixed(major: Major, count: nat, body: bytes): Result<bytes> {
    var head :- Head(major, count);
    Ok(head + body)
  }

  /** `encode`. */
  function Encode(v: Value, nfc: Nfc): Result<bytes>
    decreases v
  {
    match v
    case Bool(_) => Err(BoolValue)
    case Int(n) => EncodeInt(n)
    case Float(_) => Err(FloatValue)
    case NonFinite => Err(FloatValue)
    case Blob(b) => Prefixed(2, |b|, b)
    case Text(s) =>
      if !nfc(s) then Err(TextNotNfc)
      else var data := Utf8.Encode(s); Prefixed(3, |data|, data)
    case Array(items) =>
      var head :- Head(4, |items|);
      var body :- EncodeAll(items, nfc);
      Ok(head + body)
    case Map(entries) =>
      var items :- EncodeEntries(entries, {}, nfc);
      Prefixed(5, |items|, Flatten(Sort(items, ItemBefore)))
    case Other => Err(UnsupportedType)
  }

  function EncodeAll(values: seq<Value>, nfc: Nfc): Result<bytes>
    decreases values
  {
    if values == [] then Ok([])
    else
      var first :- Encode(values[0], nfc);
      var rest :- EncodeAll(values[1..], nfc);
      Ok(first + rest)
  }

  /** One turn of the loop in `_encode_map`, given the keys seen so far. */
  function EncodeEntry(e: Entry, seen: set<int>, nfc: Nfc): Result<Item>
    decreases e
  {
    if !(e.key.Num? && e.key.plain) || e.key.n < 0 then Err(BadMapKey)
    else if e.key.n in seen then Err(DuplicateMapKey)
    else
      var key :- Head(0, e.key.n);
      var value :- Encode(e.value, nfc);
      Ok(Item(key, value))
  }

  function EncodeEntries(entries: seq<Entry>, seen: set<int>, nfc: Nfc): (r: Result<seq<Item>>)
    ensures r.Ok? ==> |r.value| == |entries|
    decreases entries
  {
    if entries == [] then Ok([])
    else
      var item :- EncodeEntry(entries[0], seen, nfc);
      var rest :- EncodeEntries(entries[1..], seen + {KeyNumber(entries[0].key)}, nfc);
      Ok([item] + rest)
  }

  predicate ItemBefore(a: Item, b: Item) {
    Less(a.key, b.key)
  }

  function Flatten(items: seq<Item>): bytes {
    if items == [] then [] else items[0].key + items[0].value + Flatten(items[1..])
  }

  /** `b"".join(chunks)`. */
  function Join(chunks: seq<bytes>): bytes {
    if chunks == [] then [] else chunks[0] + Join(chunks[1..])
  }

  lemma {:induction false} JoinAppend(chunks: seq<bytes>, last: bytes)
    ensures Join(chunks + [last]) == Join(chunks) + last
  {
    if chunks == [] {
      assert chunks + [last] == [last];
      assert Join([last]) == last;
    } else {
      JoinAppend(chunks[1..], last);
      assert (chunks + [last])[1..] == chunks[1..] + [last];
    }
  }

  function Prepend<T>(front: seq<T>, r: Result<seq<T>>): Result<seq<T>> {
    match r
    case Ok(rest) => Ok(front + rest)
    case Err(fault) => Err(fault)
  }

  /** `_encode_map`: the two loops and the sort between them. */
  method EncodeMap(entries: seq<Entry>, nfc: Nfc) returns (r: Result<bytes>)
    ensures r == Encode(Map(entries), nfc)
  {
    hide Head, Sort, Less, EncodeInt, EncodeAll, Utf8.Encode;
    var items: seq<Item> := [];
    var seen: set<int> := {};
    assert entries[0..] == entries;
    assert forall s: seq<Item> :: items + s == s;
    for i := 0 to |entries|
      invariant EncodeEntries(entries, {}, nfc) == Prepend(items, EncodeEntries(entries[i..], seen, nfc))
    {
      var k, v := entries[i].key, entries[i].value;
      assert entries[i..][0] == entries[i] && entries[i..][1..] == entries[i + 1..];
      ghost var turn := EncodeEntry(entries[i], seen, nfc);
      if !(k.Num? && k.plain) || k.n < 0 {
        return Err(BadMapKey);
      }
      if k.n in seen {
        return Err(DuplicateMapKey);
      }
      seen := seen + {k.n};
      var key := Head(0, k.n);
      if key.Err? {
        return Err(key.fault);
      }
      var value := Encode(v, nfc);
      if value.Err? {
        return Err(value.fault);
      }
      ghost var before := items;
      items := items + [Item(key.value, value.value)];
      assert turn == Ok(Item(key.value, value.value));
      ghost var rest := EncodeEntries(entries[i + 1..], seen, nfc);
      if rest.Ok? {
        assert before + ([turn.value] + rest.value) == items + rest.value;
      }
    }
    assert EncodeEntries([], seen, nfc) == Ok([]);
    assert entries[|entries|..] == [] && items + [] == items;
    items := Sort(items, ItemBefore);
    var head := Head(5, |items|);
    if head.Err? {
      return Err(head.fault);
    }
    var out := [head.value];
    assert Join(out) == head.value && items[0..] == items;
    for i := 0 to |items|
      invariant head.value + Flatten(items) == Join(out) + Flatten(items[i..])
    {
      ghost var before := out;
      out := out + [items[i].key];
      JoinAppend(before, items[i].key);
      JoinAppend(out, items[i].value);
      out := out + [items[i].value];
      assert items[i..][0] == items[i] && items[i..][1..] == items[i + 1..];
    }
    assert Join(out) + Flatten(items[|items|..]) == Join(out);
    r := Ok(Join(out));
  }
}
