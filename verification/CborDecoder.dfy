/** The strict CBOR decoder: as functions of the data and an offset, and as the loops that compute them. */
module CborDecoder {
  import opened Bytes
  import opened Results
  import opened CborHead
  import opened CborModel
  import Utf8

  /** What was read, and the offset just after it. */
  datatype Read<+T> = Read(value: T, next: nat)

  function Slice(data: bytes, off: nat, length: nat): Result<Read<bytes>> {
    if off + length > |data| then Err(TruncatedString)
    else Ok(Read(data[off..off + length], off + length))
  }

  function DecodeText(raw: bytes, nfc: Nfc): Result<Value> {
    match Utf8.Decode(raw)
    case None => Err(InvalidUtf8)
    case Some(s) => if nfc(s) then Ok(Text(s)) else Err(TextNotNfc)
  }

  /** The items that hold no other item: majors 0 to 3, and the prohibited major 7. */
  function DecodeLeaf(data: bytes, h: HeadRead, nfc: Nfc): (r: Result<Read<Value>>)
    requires h.next <= |data|
    ensures r.Ok? ==> h.next <= r.value.next <= |data|
  {
    if h.major == 0 then Ok(Read(Int(h.arg), h.next))
    else if h.major == 1 then Ok(Read(Int(-1 - h.arg), h.next))
    else if h.major == 2 then
      var raw :- Slice(data, h.next, h.arg);
      Ok(Read(Blob(raw.value), raw.next))
    else if h.major == 3 then
      var raw :- Slice(data, h.next, h.arg);
      var text :- DecodeText(raw.value, nfc);
      Ok(Read(text, raw.next))
    else Err(MajorSeven)
  }

  /** The part of `_decode_bignum` after the head of its byte string. */
  function DecodeMagnitude(data: bytes, tag: int, h: HeadRead): (r: Result<Read<Value>>)
    ensures r.Ok? ==> h.next <= r.value.next <= |data|
  {
    if h.major != 2 then Err(BadBignumContent)
    else
      var content :- Slice(data, h.next, h.arg);
      if content.value != [] && content.value[0] == 0 then Err(LeadingZero)
      else
        var mag := FromBytes(content.value);
        var n := if tag == 2 then mag else -1 - mag;
        if -UINT64_MAX - 1 <= n <= UINT64_MAX then Err(SmallBignum)
        else Ok(Read(Int(n), content.next))
  }

  /** `_decode_bignum`, called with the offset after the tag. */
  function DecodeBignum(data: bytes, tag: int, off: nat): (r: Result<Read<Value>>)
    ensures r.Ok? ==> off < r.value.next <= |data|
  {
    if tag != 2 && tag != 3 then Err(UnsupportedTag)
    else
      var h :- ReadArg(data, off);
      DecodeMagnitude(data, tag, h)
  }

  /** `_decode_at`. */
  function DecodeAt(data: bytes, off: nat, nfc: Nfc): (r: Result<Read<Value>>)
    requires off <= |data|
    ensures r.Ok? ==> off < r.value.next <= |data|
    decreases |data| - off, 0
  {
    var h :- ReadArg(data, off);
    if h.major == 4 then
      var items :- DecodeAll(data, h.next, h.arg, nfc);
      Ok(Read(Array(items.value), items.next))
    else if h.major == 5 then
      var entries :- DecodeEntries(data, h.next, h.arg, None, nfc);
      Ok(Read(Map(entries.value), entries.next))
    else if h.major == 6 then DecodeBignum(data, h.arg, h.next)
    else DecodeLeaf(data, h, nfc)
  }

  /** `count` items one after the other. */
  function DecodeAll(data: bytes, off: nat, count: nat, nfc: Nfc): (r: Result<Read<seq<Value>>>)
    requires off <= |data|
    ensures r.Ok? ==> off <= r.value.next <= |data| && |r.value.value| == count
    decreases |data| - off, 1
  {
    if count == 0 then Ok(Read([], off))
    else
      var first :- DecodeAt(data, off, nfc);
      var rest :- DecodeAll(data, first.next, count - 1, nfc);
      Ok(Read([first.value] + rest.value, rest.next))
  }

  /** A map key: an unsigned integer whose bytes come after `prev`. */
  function DecodeKey(data: bytes, off: nat, prev: Option<bytes>): (r: Result<HeadRead>)
    ensures r.Ok? ==> off < r.value.next <= |data|
  {
    var h :- ReadArg(data, off);
    if h.major != 0 then Err(BadMapKey)
    else if prev.Some? && !Less(prev.value, data[off..h.next]) then Err(UnsortedKeys)
    else Ok(h)
  }

  /** `count` entries one after the other, the first with a key after `prev`. */
  function DecodeEntries(data: bytes, off: nat, count: nat, prev: Option<bytes>, nfc: Nfc)
      : (r: Result<Read<seq<Entry>>>)
    requires off <= |data|
    ensures r.Ok? ==> off <= r.value.next <= |data| && |r.value.value| == count
    decreases |data| - off, 1
  {
    if count == 0 then Ok(Read([], off))
    else
      var key :- DecodeKey(data, off, prev);
      var first :- DecodeAt(data, key.next, nfc);
      var rest :- DecodeEntries(data, first.next, count - 1, Some(data[off..key.next]), nfc);
      Ok(Read([Entry(Num(key.arg, true), first.value)] + rest.value, rest.next))
  }

  /** `decode`. */
  function Decode(data: bytes, nfc: Nfc): Result<Value> {
    var item :- DecodeAt(data, 0, nfc);
    if item.next != |data| then Err(TrailingBytes) else Ok(item.value)
  }

  /** Heads are paid for by the bytes they stand in; only a failing read may be one more. */
  ghost predicate HeadsPaid<T>(data: bytes, off: nat, r: Result<Read<T>>, heads: nat) {
    match r
    case Ok(item) => off + heads <= item.next
    case Err(_) => off + heads <= |data| + 1
  }

  method DecodeBignumAt(data: bytes, tag: int, off: nat) returns (r: Result<Read<Value>>, ghost heads: nat)
    requires off <= |data|
    ensures r == DecodeBignum(data, tag, off)
    ensures HeadsPaid(data, off, r, heads)
  {
    heads := 0;
    if tag != 2 && tag != 3 {
      return Err(UnsupportedTag), heads;
    }
    var h := ReadArg(data, off);
    heads := 1;
    r := if h.Err? then Err(h.fault) else DecodeMagnitude(data, tag, h.value);
  }

  /** `_decode_at` with its loops. `heads` counts the calls of `_read_arg`, its own and those below it. */
  method DecodeItem(data: bytes, off: nat, nfc: Nfc) returns (r: Result<Read<Value>>, ghost heads: nat)
    requires off <= |data|
    ensures r == DecodeAt(data, off, nfc)
    ensures HeadsPaid(data, off, r, heads)
    decreases |data| - off, 0
  {
    var head := ReadArg(data, off);
    heads := 1;
    if head.Err? {
      return Err(head.fault), heads;
    }
    var h := head.value;
    if h.major == 4 {
      var items, used := DecodeArrayLoop(data, h.next, h.arg, nfc);
      heads := heads + used;
      r := if items.Ok? then Ok(Read(Array(items.value.value), items.value.next)) else Err(items.fault);
    } else if h.major == 5 {
      var entries, used := DecodeMapLoop(data, h.next, h.arg, nfc);
      heads := heads + used;
      r := if entries.Ok? then Ok(Read(Map(entries.value.value), entries.value.next)) else Err(entries.fault);
    } else if h.major == 6 {
      ghost var used;
      r, used := DecodeBignumAt(data, h.arg, h.next);
      heads := heads + used;
    } else {
      r := DecodeLeaf(data, h, nfc);
    }
  }

  /** `r`, read after `front` was already collected. */
  function After<T>(front: seq<T>, r: Result<Read<seq<T>>>): Result<Read<seq<T>>> {
    match r
    case Ok(rest) => Ok(Read(front + rest.value, rest.next))
    case Err(fault) => Err(fault)
  }

  lemma AfterNothing<T>(r: Result<Read<seq<T>>>)
    ensures After([], r) == r
  {
    assert r.Ok? ==> [] + r.value.value == r.value.value;
  }

  /** One turn of the array loop, seen from the function. */
  lemma ItemTurn(data: bytes, off: nat, count: nat, out: seq<Value>, nfc: Nfc)
    requires off <= |data| && count > 0
    ensures match DecodeAt(data, off, nfc)
            case Err(fault) => After(out, DecodeAll(data, off, count, nfc)) == Err(fault)
            case Ok(item) => After(out, DecodeAll(data, off, count, nfc))
                             == After(out + [item.value], DecodeAll(data, item.next, count - 1, nfc))
  {
    hide DecodeAt;
    var item := DecodeAt(data, off, nfc);
    if item.Ok? {
      var rest := DecodeAll(data, item.value.next, count - 1, nfc);
      assert rest.Ok? ==> out + ([item.value.value] + rest.value.value) == out + [item.value.value] + rest.value.value;
    }
  }

  method DecodeArrayLoop(data: bytes, start: nat, count: nat, nfc: Nfc)
      returns (r: Result<Read<seq<Value>>>, ghost heads: nat)
    requires start <= |data|
    ensures r == DecodeAll(data, start, count, nfc)
    ensures HeadsPaid(data, start, r, heads)
    decreases |data| - start, 1
  {
    hide DecodeAt;
    var out: seq<Value> := [];
    var off := start;
    heads := 0;
    AfterNothing(DecodeAll(data, start, count, nfc));
    for i := 0 to count
      invariant start + heads <= off <= |data|
      invariant DecodeAll(data, start, count, nfc) == After(out, DecodeAll(data, off, count - i, nfc))
    {
      var item, used := DecodeItem(data, off, nfc);
      heads := heads + used;
      ItemTurn(data, off, count - i, out, nfc);
      if item.Err? {
        return Err(item.fault), heads;
      }
      out := out + [item.value.value];
      off := item.value.next;
    }
    assert out + [] == out;
    r := Ok(Read(out, off));
  }

  /** The keys collected so far stop at `last`, whose encoding is `prev`. */
  ghost predicate KeysUpTo(out: seq<Entry>, prev: Option<bytes>, last: int) {
    && (prev.None? ==> out == [])
    && (prev.Some? ==> 0 <= last <= UINT64_MAX && Head(0, last) == Ok(prev.value))
    && (forall e :: e in out ==> e.key.Num? && e.key.n <= last)
  }

  /** An entry whose key is accepted after `prev` has a key the dict does not hold yet, so it goes last. */
  lemma EntryGoesLast(data: bytes, off: nat, out: seq<Entry>, prev: Option<bytes>, last: int, value: Value)
    requires KeysUpTo(out, prev, last) && DecodeKey(data, off, prev).Ok?
    ensures var k := DecodeKey(data, off, prev).value;
            var longer := out + [Entry(Num(k.arg, true), value)];
            && DictSet(out, Num(k.arg, true), value) == longer
            && KeysUpTo(longer, Some(data[off..k.next]), k.arg)
  {
    var k := DecodeKey(data, off, prev).value;
    HeadInvertsReadArg(data, off);
    if prev.Some? {
      KeyOrder(last, k.arg);
    }
    DictSetAppends(out, Num(k.arg, true), value);
  }

  /** One turn of the map loop, seen from the function. */
  lemma EntryTurn(data: bytes, off: nat, count: nat, out: seq<Entry>, prev: Option<bytes>, nfc: Nfc)
    requires off <= |data| && count > 0 && DecodeKey(data, off, prev).Ok?
    requires DecodeAt(data, DecodeKey(data, off, prev).value.next, nfc).Ok?
    ensures var k := DecodeKey(data, off, prev).value;
            var item := DecodeAt(data, k.next, nfc).value;
            After(out, DecodeEntries(data, off, count, prev, nfc))
            == After(out + [Entry(Num(k.arg, true), item.value)],
                     DecodeEntries(data, item.next, count - 1, Some(data[off..k.next]), nfc))
  {
    var k := DecodeKey(data, off, prev).value;
    var item := DecodeAt(data, k.next, nfc).value;
    var entry := Entry(Num(k.arg, true), item.value);
    var rest := DecodeEntries(data, item.next, count - 1, Some(data[off..k.next]), nfc);
    assert rest.Ok? ==> out + ([entry] + rest.value.value) == (out + [entry]) + rest.value.value;
  }

  method DecodeMapLoop(data: bytes, start: nat, count: nat, nfc: Nfc)
      returns (r: Result<Read<seq<Entry>>>, ghost heads: nat)
    requires start <= |data|
    ensures r == DecodeEntries(data, start, count, None, nfc)
    ensures HeadsPaid(data, start, r, heads)
    decreases |data| - start, 1
  {
    hide ReadArg, DecodeAt, Head, Less, DictSet;
    var out: seq<Entry> := [];
    var prev: Option<bytes> := None;
    ghost var last := 0;
    var off := start;
    heads := 0;
    AfterNothing(DecodeEntries(data, start, count, None, nfc));
    for i := 0 to count
      invariant start + heads <= off <= |data|
      invariant DecodeEntries(data, start, count, None, nfc)
                == After(out, DecodeEntries(data, off, count - i, prev, nfc))
      invariant KeysUpTo(out, prev, last)
    {
      var read := ReadArg(data, off);
      heads := heads + 1;
      if read.Err? {
        return Err(read.fault), heads;
      }
      var k := read.value;
      if k.major != 0 {
        return Err(BadMapKey), heads;
      }
      var keyBytes := data[off..k.next];
      if prev.Some? && !Less(prev.value, keyBytes) {
        return Err(UnsortedKeys), heads;
      }
      assert DecodeKey(data, off, prev) == Ok(k);
      var item, used := DecodeItem(data, k.next, nfc);
      heads := heads + used;
      if item.Err? {
        return Err(item.fault), heads;
      }
      EntryTurn(data, off, count - i, out, prev, nfc);
      EntryGoesLast(data, off, out, prev, last, item.value.value);
      out := DictSet(out, Num(k.arg, true), item.value.value);
      prev, last := Some(keyBytes), k.arg;
      off := item.value.next;
    }
    assert out + [] == out;
    r := Ok(Read(out, off));
  }

  /** `decode`, with the bound on its work: at most one head more than there are bytes. */
  method DecodeBytes(data: bytes, nfc: Nfc) returns (r: Result<Value>, ghost heads: nat)
    ensures r == Decode(data, nfc)
    ensures heads <= |data| + 1
  {
    var item;
    item, heads := DecodeItem(data, 0, nfc);
    if item.Err? {
      return Err(item.fault), heads;
    }
    if item.value.next != |data| {
      return Err(TrailingBytes), heads;
    }
    r := Ok(item.value.value);
  }
}
