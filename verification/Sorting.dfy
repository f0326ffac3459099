/** sort.Slice and the order of strings, as far as the file cleanup relies on them. */
module Sorting {
  /** The order of Go strings. */
  predicate Less(a: string, b: string) {
    b != "" && (a == "" || a[0] < b[0] || (a[0] == b[0] && Less(a[1..], b[1..])))
  }

  lemma {:induction false} LessIsTotal(a: string, b: string)
    ensures Less(a, b) || a == b || Less(b, a)
    ensures !(Less(a, b) && Less(b, a)) && !Less(a, a)
  {
    if a != "" && b != "" && a[0] == b[0] {
      LessIsTotal(a[1..], b[1..]);
      assert a == [a[0]] + a[1..] && b == [b[0]] + b[1..];
    }
    if a != "" {
      LessIsTotal(a[1..], a[1..]);
    }
  }

  /** The longer of two strings of which one continues the other comes later, and otherwise the larger
      character at the first difference decides. */
  lemma {:induction false} LessIs(common: string, a: string, b: string)
    requires a == "" || b == "" || a[0] != b[0]
    ensures Less(common + a, common + b) <==> b != "" && (a == "" || a[0] < b[0])
  {
    if common == "" {
      assert common + a == a && common + b == b;
    } else {
      assert (common + a)[1..] == common[1..] + a && (common + b)[1..] == common[1..] + b;
      LessIs(common[1..], a, b);
    }
  }

  lemma {:induction false} LessIsTransitive(a: string, b: string, c: string)
    requires Less(a, b) && Less(b, c)
    ensures Less(a, c)
  {
    if a != "" && a[0] == b[0] == c[0] {
      LessIsTransitive(a[1..], b[1..], c[1..]);
    }
  }

  /** A strict weak order on the elements of a sequence: no two precede each other, and not to come
      after is transitive. */
  ghost predicate OrdersOn<T>(items: seq<T>, less: (T, T) -> bool) {
    && (forall a, b :: a in items && b in items && less(a, b) ==> !less(b, a))
    && (forall a, b, c :: a in items && b in items && c in items && !less(b, a) && !less(c, b) ==> !less(c, a))
  }

  ghost predicate Arranged<T>(s: seq<T>, less: (T, T) -> bool) {
    forall i, j :: 0 <= i < j < |s| ==> !less(s[j], s[i])
  }

  method Insert<T>(x: T, s: seq<T>, less: (T, T) -> bool, ghost items: seq<T>) returns (r: seq<T>)
    requires x in items && forall e :: e in s ==> e in items
    ensures multiset(r) == multiset(s) + multiset{x}
    ensures OrdersOn(items, less) && Arranged(s, less) ==> Arranged(r, less)
  {
    var k := 0;
    while k < |s| && !less(x, s[k])
      invariant k <= |s| && forall i :: 0 <= i < k ==> !less(x, s[i])
    {
      k := k + 1;
    }
    r := s[..k] + [x] + s[k..];
    assert s == s[..k] + s[k..];
    if OrdersOn(items, less) && Arranged(s, less) {
      InsertedInPlace(x, s, k, less, items);
    }
  }

  lemma InsertedInPlace<T>(x: T, s: seq<T>, k: nat, less: (T, T) -> bool, items: seq<T>)
    requires OrdersOn(items, less) && Arranged(s, less) && k <= |s|
    requires x in items && forall e :: e in s ==> e in items
    requires (forall i :: 0 <= i < k ==> !less(x, s[i])) && (k < |s| ==> less(x, s[k]))
    ensures Arranged(s[..k] + [x] + s[k..], less)
  {
    var r := s[..k] + [x] + s[k..];
    forall i, j | 0 <= i < j < |r|
      ensures !less(r[j], r[i])
    {
      if i == k {
        assert r[j] == s[j - 1] && !less(s[k], x);
        assert j - 1 == k || !less(s[j - 1], s[k]);
      } else if j == k {
        assert r[i] == s[i];
      } else {
        assert r[i] == s[if i < k then i else i - 1] && r[j] == s[if j < k then j else j - 1];
      }
    }
  }

  /** Slice rearranges its argument; equal elements may come out in any order. Without an order the
      result is some rearrangement. */
  method Slice<T>(items: seq<T>, less: (T, T) -> bool) returns (sorted: seq<T>)
    ensures multiset(sorted) == multiset(items)
    ensures OrdersOn(items, less) ==> Arranged(sorted, less)
  {
    sorted := [];
    var k := 0;
    while k < |items|
      invariant k <= |items| && multiset(sorted) == multiset(items[..k])
      invariant OrdersOn(items, less) ==> Arranged(sorted, less)
    {
      SameElements(sorted, items[..k]);
      sorted := Insert(items[k], sorted, less, items);
      assert items[..k + 1] == items[..k] + [items[k]];
      k := k + 1;
    }
    assert items[..k] == items;
  }

  lemma SameElements<T>(a: seq<T>, b: seq<T>)
    requires multiset(a) == multiset(b)
    ensures forall x :: x in a <==> x in b
  {
    forall x
      ensures x in a <==> x in b
    {
      assert x in a <==> x in multiset(a);
      assert x in b <==> x in multiset(b);
    }
  }

  /** A rearrangement has the same elements and repeats none that were not repeated. */
  lemma PermutationIsDistinct<T>(a: seq<T>, b: seq<T>)
    requires multiset(a) == multiset(b)
    requires forall i, j :: 0 <= i < j < |a| ==> a[i] != a[j]
    ensures forall x :: x in b <==> x in a
    ensures forall i, j :: 0 <= i < j < |b| ==> b[i] != b[j]
  {
    SameElements(a, b);
    forall i, j | 0 <= i < j < |b|
      ensures b[i] != b[j]
    {
      OccursOnce(a, b[i]);
      if b[i] == b[j] {
        OccursTwice(b, i, j);
      }
    }
  }

  lemma OccursTwice<T>(s: seq<T>, i: nat, j: nat)
    requires i < j < |s| && s[i] == s[j]
    ensures multiset(s)[s[i]] >= 2
  {
    assert s == s[..j] + [s[j]] + s[j + 1..];
    assert s[i] in s[..j];
  }

  lemma {:induction false} OccursOnce<T>(s: seq<T>, x: T)
    requires forall i, j :: 0 <= i < j < |s| ==> s[i] != s[j]
    ensures multiset(s)[x] <= 1
  {
    if s != [] {
      var last := |s| - 1;
      assert s == s[..last] + [s[last]];
      OccursOnce(s[..last], x);
      assert s[last] == x ==> x !in s[..last];
    }
  }
}
