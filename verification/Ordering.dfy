/** Python's `sorted` with a string key: code-point order, stable. */
module Ordering {

  /** a <= b for Python strings. */
  predicate Leq(a: string, b: string) {
    a == "" || (b != "" && (a[0] < b[0] || (a[0] == b[0] && Leq(a[1..], b[1..]))))
  }

  /** The order of text by code: at the first difference the smaller character decides, and a beginning comes first. */
  lemma {:induction false} LeqExactly(a: string, b: string)
    ensures Leq(a, b) <==>
      a <= b || exists i :: 0 <= i < |a| && i < |b| && a[..i] == b[..i] && a[i] < b[i]
  {
    if a != [] && b != [] && a[0] == b[0] {
      var a', b' := a[1..], b[1..];
      LeqExactly(a', b');
      assert a == [a[0]] + a' && b == [b[0]] + b';
      if i :| 0 <= i < |a'| && i < |b'| && a'[..i] == b'[..i] && a'[i] < b'[i] {
        assert a[..i + 1] == [a[0]] + a'[..i] && b[..i + 1] == [b[0]] + b'[..i];
        assert a[i + 1] < b[i + 1];
      }
      if i :| 0 <= i < |a| && i < |b| && a[..i] == b[..i] && a[i] < b[i] {
        assert i > 0 && a'[..i - 1] == a[..i][1..] && b'[..i - 1] == b[..i][1..];
        assert a'[i - 1] < b'[i - 1];
      }
    } else if a != [] && b != [] {
      if a[0] < b[0] {
        assert a[..0] == b[..0];
      }
    }
  }

  lemma {:induction false} LeqTotal(a: string, b: string)
    ensures Leq(a, b) || Leq(b, a)
    ensures Leq(a, b) && Leq(b, a) ==> a == b
  {
    if a != "" && b != "" && a[0] == b[0] {
      LeqTotal(a[1..], b[1..]);
      assert a == [a[0]] + a[1..] && b == [b[0]] + b[1..];
    }
  }

  lemma {:induction false} LeqTransitive(a: string, b: string, c: string)
    requires Leq(a, b) && Leq(b, c)
    ensures Leq(a, c)
  {
    if a != "" && a[0] == b[0] == c[0] {
      LeqTransitive(a[1..], b[1..], c[1..]);
    }
  }

  predicate Sorted<T>(key: T -> string, s: seq<T>) {
    forall i, j :: 0 <= i < j < |s| ==> Leq(key(s[i]), key(s[j]))
  }

  /** The elements with one key, in order. */
  function Class<T>(key: T -> string, s: seq<T>, k: string): seq<T> {
    if s == [] then []
    else
      var earlier := Class(key, s[..|s| - 1], k);
      if key(s[|s| - 1]) == k then earlier + [s[|s| - 1]] else earlier
  }

  /** `r` holds the elements of `s` in key order, and those with equal keys in the order of `s`. */
  ghost predicate IsStableSort<T(!new)>(key: T -> string, r: seq<T>, s: seq<T>) {
    Sorted(key, r) && forall k :: Class(key, r, k) == Class(key, s, k)
  }

  function Insert<T>(key: T -> string, x: T, s: seq<T>): seq<T> {
    if s == [] || Leq(key(s[|s| - 1]), key(x)) then s + [x]
    else Insert(key, x, s[..|s| - 1]) + [s[|s| - 1]]
  }

  function StableSort<T>(key: T -> string, s: seq<T>): seq<T> {
    if s == [] then [] else Insert(key, s[|s| - 1], StableSort(key, s[..|s| - 1]))
  }

  lemma ClassAppend<T>(key: T -> string, s: seq<T>, x: T, k: string)
    ensures Class(key, s + [x], k) == Class(key, s, k) + if key(x) == k then [x] else []
  {
    assert (s + [x])[..|s|] == s;
  }

  lemma {:induction false} ClassInsert<T>(key: T -> string, x: T, s: seq<T>, k: string)
    requires Sorted(key, s)
    ensures Class(key, Insert(key, x, s), k) == Class(key, s, k) + if key(x) == k then [x] else []
  {
    if s == [] || Leq(key(s[|s| - 1]), key(x)) {
      ClassAppend(key, s, x, k);
    } else {
      var last := s[|s| - 1];
      ClassInsert(key, x, s[..|s| - 1], k);
      ClassAppend(key, Insert(key, x, s[..|s| - 1]), last, k);
      if key(x) == k && key(last) == k {
        LeqTotal(k, k);
      }
    }
  }

  lemma {:induction false} InsertElement<T>(key: T -> string, x: T, s: seq<T>, y: T)
    requires y in Insert(key, x, s)
    ensures y == x || y in s
  {
    if s != [] && !Leq(key(s[|s| - 1]), key(x)) {
      if y != s[|s| - 1] {
        InsertElement(key, x, s[..|s| - 1], y);
      }
    }
  }

  lemma SortedAppend<T>(key: T -> string, s: seq<T>, x: T)
    requires Sorted(key, s) && forall y :: y in s ==> Leq(key(y), key(x))
    ensures Sorted(key, s + [x])
  {
  }

  lemma {:induction false} SortedInsert<T>(key: T -> string, x: T, s: seq<T>)
    requires Sorted(key, s)
    ensures Sorted(key, Insert(key, x, s))
  {
    if s == [] {
    } else {
      var last := s[|s| - 1];
      var front := s[..|s| - 1];
      forall y | y in front
        ensures Leq(key(y), key(last))
      {
        var i :| 0 <= i < |front| && front[i] == y;
        assert s[i] == y;
      }
      if Leq(key(last), key(x)) {
        forall y | y in s
          ensures Leq(key(y), key(x))
        {
          if y != last {
            assert y in front;
            LeqTransitive(key(y), key(last), key(x));
          }
        }
        SortedAppend(key, s, x);
      } else {
        LeqTotal(key(x), key(last));
        SortedInsert(key, x, front);
        forall y | y in Insert(key, x, front)
          ensures Leq(key(y), key(last))
        {
          InsertElement(key, x, front, y);
        }
        SortedAppend(key, Insert(key, x, front), last);
        assert s == front + [last];
      }
    }
  }

  lemma {:induction false} StableSortIsStable<T(!new)>(key: T -> string, s: seq<T>)
    ensures IsStableSort(key, StableSort(key, s), s)
  {
    if s != [] {
      var n := |s| - 1;
      var front := StableSort(key, s[..n]);
      StableSortIsStable(key, s[..n]);
      SortedInsert(key, s[n], front);
      forall k
        ensures Class(key, StableSort(key, s), k) == Class(key, s, k)
      {
        ClassInsert(key, s[n], front, k);
      }
    }
  }

  lemma {:induction false} ClassElements<T>(key: T -> string, s: seq<T>, k: string)
    ensures Class(key, s, k) != [] <==> exists x :: x in s && key(x) == k
  {
    if s != [] {
      ClassElements(key, s[..|s| - 1], k);
      assert s == s[..|s| - 1] + [s[|s| - 1]];
    }
  }

  /** A key present in both lists cannot exceed the key of the last element of a sorted one. */
  lemma LastIsGreatest<T>(key: T -> string, s: seq<T>, t: seq<T>)
    requires s != [] && Sorted(key, t) && Class(key, s, key(s[|s| - 1])) == Class(key, t, key(s[|s| - 1]))
    ensures t != [] && Leq(key(s[|s| - 1]), key(t[|t| - 1]))
  {
    var k := key(s[|s| - 1]);
    ClassElements(key, s, k);
    ClassElements(key, t, k);
    var x :| x in t && key(x) == k;
    var i :| 0 <= i < |t| && t[i] == x;
    LeqTotal(k, k);
  }

  /** Being a stable sort determines the list. */
  lemma StableSortUnique<T(!new)>(key: T -> string, r: seq<T>, t: seq<T>, s: seq<T>)
    requires IsStableSort(key, r, s) && IsStableSort(key, t, s)
    ensures r == t
  {
    SortedSameClasses(key, r, t);
  }

  lemma {:induction false} SortedSameClasses<T(!new)>(key: T -> string, r: seq<T>, t: seq<T>)
    requires Sorted(key, r) && Sorted(key, t) && forall k :: Class(key, r, k) == Class(key, t, k)
    ensures r == t
    decreases |r| + |t|
  {
    if r != [] {
      LastIsGreatest(key, r, t);
    }
    if t != [] {
      LastIsGreatest(key, t, r);
      var a, b := r[|r| - 1], t[|t| - 1];
      LeqTotal(key(a), key(b));
      var r', t' := r[..|r| - 1], t[..|t| - 1];
      assert r == r' + [a] && t == t' + [b];
      forall k
        ensures Class(key, r', k) == Class(key, t', k)
      {
        ClassAppend(key, r', a, k);
        ClassAppend(key, t', b, k);
        if key(a) == k {
          var c := Class(key, r, k);
          assert c == Class(key, r', k) + [a] == Class(key, t', k) + [b];
          assert c[..|c| - 1] == Class(key, r', k) && c[..|c| - 1] == Class(key, t', k);
        }
      }
      var c := Class(key, r, key(a));
      ClassAppend(key, r', a, key(a));
      ClassAppend(key, t', b, key(a));
      assert c[|c| - 1] == a && c[|c| - 1] == b;
      SortedSameClasses(key, r', t');
    }
  }
}
