/** The Python values that reach the codec, and when two of them are equal. */
module CborModel {
  import opened Bytes
  import opened Results
  import opened Sorting

  /** A dict key. `plain` tells an int from a bool or float that equals it; other keys carry only a tag. */
  datatype Key = Num(n: int, plain: bool) | OtherKey(tag: string)

  datatype Entry = Entry(key: Key, value: Value)

  /** `Blob` is bytes or bytearray; `Map` is a dict in insertion order; `Other` is any unsupported type. */
  datatype Value =
    | Int(n: int)
    | Blob(b: bytes)
    | Text(s: string)
    | Array(items: seq<Value>)
    | Map(entries: seq<Entry>)
    | Bool(truth: bool)
    | Float(f: real)
    | NonFinite
    | Other

  /** Unicode normalisation, known only as the test `unicodedata.normalize("NFC", s) == s`. */
  type Nfc = string -> bool

  /** Python's dict key equality: 1, True and 1.0 are one key. */
  predicate SameKey(a: Key, b: Key) {
    match (a, b)
    case (Num(m, _), Num(n, _)) => m == n
    case (OtherKey(s), OtherKey(t)) => s == t
    case _ => false
  }

  predicate DistinctKeys(entries: seq<Entry>) {
    forall i, j :: 0 <= i < j < |entries| ==> !SameKey(entries[i].key, entries[j].key)
  }

  /** `d[k] = v`: an existing key keeps its place, a new one goes last. */
  function DictSet(entries: seq<Entry>, key: Key, value: Value): seq<Entry> {
    if entries == [] then [Entry(key, value)]
    else if SameKey(entries[0].key, key) then [Entry(entries[0].key, value)] + entries[1..]
    else [entries[0]] + DictSet(entries[1..], key, value)
  }

  lemma {:induction false} DictSetAppends(entries: seq<Entry>, key: Key, value: Value)
    requires forall e :: e in entries ==> !SameKey(e.key, key)
    ensures DictSet(entries, key, value) == entries + [Entry(key, value)]
  {
    if entries != [] {
      DictSetAppends(entries[1..], key, value);
    }
  }

  /** `d.get(k)`. */
  function Lookup(entries: seq<Entry>, key: Key): Option<Value> {
    if entries == [] then None
    else if SameKey(entries[0].key, key) then Some(entries[0].value)
    else Lookup(entries[1..], key)
  }

  lemma {:induction false} LookupFinds(entries: seq<Entry>, key: Key) returns (i: int)
    requires Lookup(entries, key).Some?
    ensures 0 <= i < |entries| && SameKey(entries[i].key, key) && Lookup(entries, key) == Some(entries[i].value)
  {
    if SameKey(entries[0].key, key) {
      i := 0;
    } else {
      i := LookupFinds(entries[1..], key);
      i := i + 1;
    }
  }

  lemma {:induction false} LookupMember(entries: seq<Entry>, i: int, key: Key)
    requires DistinctKeys(entries) && 0 <= i < |entries| && SameKey(entries[i].key, key)
    ensures Lookup(entries, key) == Some(entries[i].value)
  {
    if i > 0 {
      assert !SameKey(entries[0].key, entries[i].key);
      LookupMember(entries[1..], i - 1, key);
    }
  }

  /** What `d[k] = v` does to every lookup, and to the order of the keys. */
  lemma {:induction false} DictSetLookup(entries: seq<Entry>, key: Key, value: Value, other: Key)
    ensures var r := DictSet(entries, key, value);
            && Lookup(r, other) == (if SameKey(key, other) then Some(value) else Lookup(entries, other))
            && |r| == |entries| + (if Lookup(entries, key).Some? then 0 else 1)
            && forall i :: 0 <= i < |entries| ==> r[i].key == entries[i].key
  {
    if entries != [] && !SameKey(entries[0].key, key) {
      DictSetLookup(entries[1..], key, value, other);
    }
  }

  /** Python's `==`, within the model: dicts are equal as associations, whatever their insertion order. */
  ghost predicate Same(v: Value, w: Value)
    decreases v
  {
    match (v, w)
    case (Array(xs), Array(ys)) =>
      |xs| == |ys| && forall i :: 0 <= i < |xs| ==> Same(xs[i], ys[i])
    case (Map(es), Map(fs)) =>
      && (forall i :: 0 <= i < |es| ==> AgreesIn(es[i], fs))
      && (forall j :: 0 <= j < |fs| ==> Lookup(es, fs[j].key).Some?)
    case _ => v == w
  }

  /** The dict `fs` holds the entry's key, with an equal value. */
  ghost predicate AgreesIn(e: Entry, fs: seq<Entry>)
    decreases e
  {
    match Lookup(fs, e.key)
    case None => false
    case Some(w) => Same(e.value, w)
  }

  function KeyNumber(k: Key): int {
    match k
    case Num(n, _) => n
    case OtherKey(_) => 0
  }

  predicate KeyBefore(e: Entry, f: Entry) {
    KeyNumber(e.key) < KeyNumber(f.key)
  }

  /** The same value with every dict, at every depth, listed by ascending key. */
  function Canon(v: Value): Value
    decreases v
  {
    match v
    case Array(items) =>
      Array(CanonAll(items))
    case Map(entries) =>
      Map(Sort(CanonEntries(entries), KeyBefore))
    case _ => v
  }

  function CanonAll(items: seq<Value>): (r: seq<Value>)
    ensures |r| == |items|
    ensures forall i :: 0 <= i < |r| ==> r[i] == Canon(items[i])
    decreases items
  {
    if items == [] then [] else [Canon(items[0])] + CanonAll(items[1..])
  }

  function CanonEntry(e: Entry): Entry
    decreases e
  {
    Entry(e.key, Canon(e.value))
  }

  function CanonEntries(entries: seq<Entry>): (r: seq<Entry>)
    ensures |r| == |entries|
    ensures forall i :: 0 <= i < |r| ==> r[i] == CanonEntry(entries[i])
    decreases entries
  {
    if entries == [] then [] else [CanonEntry(entries[0])] + CanonEntries(entries[1..])
  }

  predicate AscendingKeys(entries: seq<Entry>) {
    forall i, j :: 0 <= i < j < |entries| ==> KeyNumber(entries[i].key) < KeyNumber(entries[j].key)
  }

  predicate PlainKeys(entries: seq<Entry>) {
    forall i :: 0 <= i < |entries| ==> entries[i].key.Num? && entries[i].key.plain
  }

  /** Sorting distinct plain keys lists them in strictly ascending order, and loses none. */
  lemma SortedEntries(entries: seq<Entry>)
    requires PlainKeys(entries) && DistinctKeys(entries)
    ensures var r := Sort(entries, KeyBefore); AscendingKeys(r) && PlainKeys(r) && DistinctKeys(r)
    ensures forall e :: e in Sort(entries, KeyBefore) <==> e in entries
  {
    var r := Sort(entries, KeyBefore);
    SortAscends(entries, KeyBefore);
    SortMembers(entries, KeyBefore);
    forall i | 0 <= i < |r| ensures r[i].key.Num? && r[i].key.plain {
      assert r[i] in entries;
    }
    forall i, j | 0 <= i < j < |r| ensures KeyNumber(r[i].key) < KeyNumber(r[j].key) {
      assert KeyBefore(r[i], r[j]);
    }
  }

  /** Two ascending lists of plain keys with the same members are the same list. */
  lemma {:induction false} AscendingUnique(a: seq<Entry>, b: seq<Entry>)
    requires AscendingKeys(a) && AscendingKeys(b)
    requires forall e :: e in a <==> e in b
    ensures a == b
  {
    assert |a| > 0 ==> a[0] in b;
    assert |b| > 0 ==> b[0] in a;
    if a != [] && b != [] {
      assert a[0] in b && b[0] in a;
      assert a[0] == b[0];
      forall e ensures e in a[1..] <==> e in b[1..] {
        if e in a[1..] {
          var i :| 1 <= i < |a| && a[i] == e;
          assert e in b && KeyBefore(a[0], e);
        }
        if e in b[1..] {
          var i :| 1 <= i < |b| && b[i] == e;
          assert e in a && KeyBefore(b[0], e);
        }
      }
      AscendingUnique(a[1..], b[1..]);
    }
  }
}
