/** Strings in code-point order, and the sorted list of a finite set of them.
    Every list the system derives from a dictionary or a set is sorted this way. */
module Ordering {

  /** Lexicographic order by code point. */
  predicate Less(a: string, b: string) {
    b != [] && (a == [] || a[0] < b[0] || (a[0] == b[0] && Less(a[1..], b[1..])))
  }

  lemma {:induction false} LessTransitive(a: string, b: string, c: string)
    requires Less(a, b) && Less(b, c)
    ensures Less(a, c)
  {
    if a != [] && a[0] == b[0] && b[0] == c[0] {
      LessTransitive(a[1..], b[1..], c[1..]);
    }
  }

  lemma {:induction false} LessTotal(a: string, b: string)
    ensures a == b || Less(a, b) || Less(b, a)
    ensures !(Less(a, b) && Less(b, a))
    ensures a == b ==> !Less(a, b)
  {
    if a != [] && b != [] && a[0] == b[0] {
      LessTotal(a[1..], b[1..]);
      assert a == [a[0]] + a[1..];
      assert b == [b[0]] + b[1..];
    }
  }

  predicate IsLeast(m: string, s: set<string>) {
    m in s && forall x | x in s :: x == m || Less(m, x)
  }

  lemma {:induction false} LeastExists(s: set<string>)
    requires s != {}
    ensures exists m :: IsLeast(m, s)
  {
    var x :| x in s;
    if s == {x} {
      assert IsLeast(x, s);
    } else {
      var rest := s - {x};
      assert s == {x} + rest;
      LeastExists(rest);
      var r :| IsLeast(r, rest);
      LessTotal(x, r);
      var m := if Less(x, r) then x else r;
      forall y | y in s ensures y == m || Less(m, y) {
        if y != x && m == x { if y != r { LessTransitive(x, r, y); } }
      }
      assert IsLeast(m, s);
    }
  }

  lemma LeastUnique(s: set<string>, m: string, n: string)
    requires IsLeast(m, s) && IsLeast(n, s)
    ensures m == n
  {
    LessTotal(m, n);
  }

  function Least(s: set<string>): (m: string)
    requires s != {}
    ensures IsLeast(m, s)
  {
    LeastExists(s);
    assert forall a, b | IsLeast(a, s) && IsLeast(b, s) :: a == b by {
      forall a, b | IsLeast(a, s) && IsLeast(b, s) ensures a == b { LeastUnique(s, a, b); }
    }
    var m :| IsLeast(m, s);
    m
  }

  predicate Ascending(r: seq<string>) {
    forall i, j | 0 <= i < j < |r| :: Less(r[i], r[j])
  }

  /** The elements of `r`. */
  function Elements<T>(r: seq<T>): set<T> {
    set x | x in r
  }

  predicate Distinct<T(==)>(r: seq<T>) {
    forall i, j | 0 <= i < j < |r| :: r[i] != r[j]
  }

  /** Python's `sorted` of a set of strings. */
  function Sorted(s: set<string>): (r: seq<string>)
    ensures forall x :: x in r <==> x in s
    ensures |r| == |s|
  {
    if s == {} then []
    else var m := Least(s); [m] + Sorted(s - {m})
  }

  /** The sorted list ascends. */
  lemma {:induction false} SortedAscends(s: set<string>)
    ensures Ascending(Sorted(s))
  {
    if s != {} {
      var m, rest := Least(s), Sorted(s - {Least(s)});
      SortedAscends(s - {m});
      forall i, j | 0 <= i < j < |[m] + rest| ensures Less(([m] + rest)[i], ([m] + rest)[j]) {
        assert rest[j - 1] in s - {m};
      }
    }
  }

  lemma AscendingDistinct(r: seq<string>)
    requires Ascending(r)
    ensures Distinct(r)
  {
    forall i, j | 0 <= i < j < |r| ensures r[i] != r[j] { LessTotal(r[i], r[j]); }
  }

  /** Each member is listed once. */
  lemma SortedDistinct(s: set<string>)
    ensures Distinct(Sorted(s))
  {
    SortedAscends(s);
    AscendingDistinct(Sorted(s));
  }

  lemma SortedOne(a: string)
    ensures Sorted({a}) == [a]
  {
    assert Least({a}) == a;
    assert {a} - {a} == {};
  }

  lemma SortedTwo(a: string, b: string)
    requires Less(a, b)
    ensures Sorted({a, b}) == [a, b]
  {
    LessTotal(a, b);
    assert IsLeast(a, {a, b});
    LeastUnique({a, b}, Least({a, b}), a);
    assert {a, b} - {a} == {b};
    SortedOne(b);
  }

  lemma SortedThree(a: string, b: string, c: string)
    requires Less(a, b) && Less(a, c) && Less(b, c)
    ensures Sorted({a, b, c}) == [a, b, c]
  {
    LessTotal(a, b);
    LessTotal(a, c);
    assert IsLeast(a, {a, b, c});
    LeastUnique({a, b, c}, Least({a, b, c}), a);
    assert {a, b, c} - {a} == {b, c};
    SortedTwo(b, c);
  }

  /** What two strings begin with alike does not count. */
  lemma {:induction false} LessAfter(prefix: string, a: string, b: string)
    ensures Less(prefix + a, prefix + b) <==> Less(a, b)
  {
    if prefix == [] {
      assert prefix + a == a && prefix + b == b;
    } else {
      LessAfter(prefix[1..], a, b);
      assert (prefix + a)[1..] == prefix[1..] + a && (prefix + b)[1..] == prefix[1..] + b;
    }
  }

  /** A text comes before another that it begins, and otherwise the first different character decides. */
  lemma {:induction false} LessExactly(a: string, b: string)
    ensures Less(a, b) <==>
            a < b || exists i :: 0 <= i < |a| && i < |b| && a[..i] == b[..i] && a[i] < b[i]
  {
    if a != [] && b != [] && a[0] == b[0] {
      LessExactly(a[1..], b[1..]);
      assert a == [a[0]] + a[1..] && b == [b[0]] + b[1..];
      if i :| 0 <= i < |a[1..]| && i < |b[1..]| && a[1..][..i] == b[1..][..i] && a[1..][i] < b[1..][i] {
        assert a[..i + 1] == [a[0]] + a[1..][..i] && b[..i + 1] == [b[0]] + b[1..][..i];
        assert a[i + 1] < b[i + 1];
      }
      if i :| 0 <= i < |a| && i < |b| && a[..i] == b[..i] && a[i] < b[i] {
        assert i > 0 && a[1..][..i - 1] == a[..i][1..] && b[1..][..i - 1] == b[..i][1..];
        assert a[1..][i - 1] < b[1..][i - 1];
      }
    } else if a != [] && b != [] && a[0] < b[0] {
      assert a[..0] == b[..0];
    }
  }

  lemma {:induction false} SortedGrows(keys: set<string>, key: string)
    requires key !in keys && forall other | other in keys :: Less(other, key)
    ensures Sorted(keys + {key}) == Sorted(keys) + [key]
    decreases |keys|
  {
    if keys == {} {
      SortedOne(key);
      assert {} + {key} == {key};
      assert [] + [key] == [key];
    } else {
      var m := Least(keys);
      assert IsLeast(m, keys + {key});
      LeastUnique(keys + {key}, m, Least(keys + {key}));
      assert keys + {key} - {m} == (keys - {m}) + {key};
      SortedGrows(keys - {m}, key);
    }
  }
}
