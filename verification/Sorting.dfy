/** The stable sort that stands for Python's `list.sort` and SQL's ORDER BY. */
module Sorting {

  function Insert<T>(x: T, s: seq<T>, less: (T, T) -> bool): (r: seq<T>)
    ensures |r| == |s| + 1
  {
    if s == [] || !less(s[0], x) then [x] + s else [s[0]] + Insert(x, s[1..], less)
  }

  function Sort<T>(s: seq<T>, less: (T, T) -> bool): (r: seq<T>)
    ensures |r| == |s|
  {
    if s == [] then [] else Insert(s[0], Sort(s[1..], less), less)
  }

  /** `less` is a strict ordering whose incomparable elements tie. */
  ghost predicate Ordering<T(!new)>(less: (T, T) -> bool) {
    && (forall x, y :: less(x, y) ==> !less(y, x))
    && (forall x, y, z :: !less(y, x) && !less(z, y) ==> !less(z, x))
  }

  ghost predicate Sorted<T>(s: seq<T>, less: (T, T) -> bool) {
    forall i, j :: 0 <= i < j < |s| ==> !less(s[j], s[i])
  }

  lemma {:induction false} InsertPermutes<T>(x: T, s: seq<T>, less: (T, T) -> bool)
    ensures multiset(Insert(x, s, less)) == multiset([x]) + multiset(s)
  {
    if s != [] && less(s[0], x) {
      InsertPermutes(x, s[1..], less);
      assert s == [s[0]] + s[1..];
    }
  }

  lemma {:induction false} SortPermutes<T>(s: seq<T>, less: (T, T) -> bool)
    ensures multiset(Sort(s, less)) == multiset(s)
  {
    if s != [] {
      SortPermutes(s[1..], less);
      InsertPermutes(s[0], Sort(s[1..], less), less);
      assert s == [s[0]] + s[1..];
    }
  }

  lemma SortMembers<T(!new)>(s: seq<T>, less: (T, T) -> bool)
    ensures forall x :: x in Sort(s, less) <==> x in s
  {
    SortPermutes(s, less);
    forall x ensures x in Sort(s, less) <==> x in s {
      assert x in Sort(s, less) <==> x in multiset(Sort(s, less));
      assert x in s <==> x in multiset(s);
    }
  }

  ghost predicate Ascending<T>(s: seq<T>, less: (T, T) -> bool) {
    forall i, j :: 0 <= i < j < |s| ==> less(s[i], s[j])
  }

  ghost predicate NoTies<T>(s: seq<T>, less: (T, T) -> bool) {
    forall i, j :: 0 <= i < j < |s| ==> less(s[i], s[j]) || less(s[j], s[i])
  }

  lemma {:induction false} InsertAscends<T(!new)>(x: T, s: seq<T>, less: (T, T) -> bool)
    requires Ordering(less) && Ascending(s, less)
    requires forall y :: y in s ==> less(x, y) || less(y, x)
    ensures Ascending(Insert(x, s, less), less)
  {
    if s != [] {
      if less(s[0], x) {
        var tail := Insert(x, s[1..], less);
        InsertAscends(x, s[1..], less);
        InsertPermutes(x, s[1..], less);
        forall j | 0 <= j < |tail| ensures less(s[0], tail[j]) {
          assert tail[j] in multiset(tail);
          assert tail[j] == x || tail[j] in multiset(s[1..]);
        }
      } else {
        forall j | 0 <= j < |s| ensures less(x, s[j]) {
          assert s[0] in s && !less(s[j], s[0]);
        }
      }
    }
  }

  /** Without ties the sorted list is strictly ascending. */
  lemma {:induction false} SortAscends<T(!new)>(s: seq<T>, less: (T, T) -> bool)
    requires Ordering(less) && NoTies(s, less)
    ensures Ascending(Sort(s, less), less)
  {
    if s != [] {
      SortAscends(s[1..], less);
      SortMembers(s[1..], less);
      InsertAscends(s[0], Sort(s[1..], less), less);
    }
  }

  lemma {:induction false} SortedIsFixed<T>(s: seq<T>, less: (T, T) -> bool)
    requires Sorted(s, less)
    ensures Sort(s, less) == s
  {
    if s != [] {
      SortedIsFixed(s[1..], less);
    }
  }

  ghost predicate Related<A, B>(a: seq<A>, b: seq<B>, rel: (A, B) -> bool) {
    |a| == |b| && forall i :: 0 <= i < |a| ==> rel(a[i], b[i])
  }

  ghost predicate AgreeOnOrder<A(!new), B(!new)>(lessA: (A, A) -> bool, lessB: (B, B) -> bool, rel: (A, B) -> bool) {
    forall x, y, x', y' :: rel(x, y) && rel(x', y') ==> (lessA(x, x') <==> lessB(y, y'))
  }

  lemma {:induction false} InsertRelated<A(!new), B(!new)>(x: A, a: seq<A>, y: B, b: seq<B>,
      lessA: (A, A) -> bool, lessB: (B, B) -> bool, rel: (A, B) -> bool)
    requires Related(a, b, rel) && rel(x, y)
    requires forall i :: 0 <= i < |a| ==> (lessA(a[i], x) <==> lessB(b[i], y))
    ensures Related(Insert(x, a, lessA), Insert(y, b, lessB), rel)
  {
    if a != [] && lessA(a[0], x) {
      InsertRelated(x, a[1..], y, b[1..], lessA, lessB, rel);
    }
  }

  /** Sorting respects a pointwise relation under which the two orders agree. */
  lemma {:induction false} SortRelated<A(!new), B(!new)>(a: seq<A>, b: seq<B>,
      lessA: (A, A) -> bool, lessB: (B, B) -> bool, rel: (A, B) -> bool)
    requires Related(a, b, rel) && AgreeOnOrder(lessA, lessB, rel)
    ensures Related(Sort(a, lessA), Sort(b, lessB), rel)
  {
    if a != [] {
      SortRelated(a[1..], b[1..], lessA, lessB, rel);
      var p, q := Sort(a[1..], lessA), Sort(b[1..], lessB);
      forall i | 0 <= i < |p| ensures lessA(p[i], a[0]) <==> lessB(q[i], b[0]) {
        assert rel(p[i], q[i]) && rel(a[0], b[0]);
      }
      InsertRelated(a[0], p, b[0], q, lessA, lessB, rel);
    }
  }

  /** An element that nothing comes after is sorted to the end. */
  lemma {:induction false} SortKeepsLast<T(!new)>(s: seq<T>, last: T, less: (T, T) -> bool)
    requires forall x :: x in s ==> !less(last, x)
    ensures Sort(s + [last], less) == Sort(s, less) + [last]
  {
    if s == [] {
      assert s + [last] == [last];
      assert Sort([last], less) == [last];
    } else {
      assert (s + [last])[0] == s[0] && (s + [last])[1..] == s[1..] + [last];
      SortKeepsLast(s[1..], last, less);
      InsertKeepsLast(s[0], Sort(s[1..], less), last, less);
    }
  }

  lemma {:induction false} InsertKeepsLast<T>(x: T, s: seq<T>, last: T, less: (T, T) -> bool)
    requires !less(last, x)
    ensures Insert(x, s + [last], less) == Insert(x, s, less) + [last]
  {
    if s == [] {
      assert s + [last] == [last];
    } else {
      assert (s + [last])[0] == s[0] && (s + [last])[1..] == s[1..] + [last];
      if less(s[0], x) {
        InsertKeepsLast(x, s[1..], last, less);
      }
    }
  }
}
