/**
 * Python's `list.sort(key=..., reverse=True)` on string keys, as the
 * scripts use it to put dated records newest first: strings compare by
 * code point, lexicographically, and the sort is stable.
 */
module Sorting {

  /** Python's `a < b` on strings. */
  predicate StrLt(a: string, b: string) {
    if a == [] then b != []
    else if b == [] then false
    else if a[0] != b[0] then a[0] < b[0]
    else StrLt(a[1..], b[1..])
  }

  lemma {:induction false} StrLtIrreflexive(a: string)
    ensures !StrLt(a, a)
  {
    if a != [] {
      StrLtIrreflexive(a[1..]);
    }
  }

  lemma {:induction false} StrLtTrichotomy(a: string, b: string)
    ensures StrLt(a, b) || a == b || StrLt(b, a)
  {
    if a != [] && b != [] && a[0] == b[0] {
      StrLtTrichotomy(a[1..], b[1..]);
      if a[1..] == b[1..] {
        assert a == [a[0]] + a[1..] && b == [b[0]] + b[1..];
      }
    }
  }

  lemma {:induction false} StrLtAsymmetric(a: string, b: string)
    ensures StrLt(a, b) ==> !StrLt(b, a)
  {
    if a != [] && b != [] && a[0] == b[0] {
      StrLtAsymmetric(a[1..], b[1..]);
    }
  }

  lemma {:induction false} StrLtTransitive(a: string, b: string, c: string)
    requires StrLt(a, b) && StrLt(b, c)
    ensures StrLt(a, c)
  {
    if a != [] && b != [] && c != [] && a[0] == b[0] && b[0] == c[0] {
      StrLtTransitive(a[1..], b[1..], c[1..]);
    }
  }

  /** `a >= b` on strings. */
  predicate StrGe(a: string, b: string) { !StrLt(a, b) }

  lemma StrGeTransitive(a: string, b: string, c: string)
    requires StrGe(a, b) && StrGe(b, c)
    ensures StrGe(a, c)
  {
    StrLtTrichotomy(a, b);
    StrLtTrichotomy(b, c);
    if StrLt(a, c) {
      if StrLt(b, a) {
        StrLtTransitive(b, a, c);
      }
      if StrLt(c, b) && a == b {
        StrLtAsymmetric(c, b);
      }
      if StrLt(c, b) && StrLt(b, a) {
        StrLtTransitive(c, b, a);
        StrLtAsymmetric(c, a);
      }
    }
  }

  /** Keys never increase from left to right. */
  predicate SortedDesc<T>(s: seq<T>, key: T -> string) {
    forall i, j :: 0 <= i < j < |s| ==> StrGe(key(s[i]), key(s[j]))
  }

  /** Put `x` in front of the first element whose key is not greater than its own. */
  function Insert<T>(x: T, s: seq<T>, key: T -> string): (r: seq<T>)
    ensures |r| == |s| + 1
  {
    if s == [] || !StrLt(key(x), key(s[0])) then [x] + s
    else [s[0]] + Insert(x, s[1..], key)
  }

  /** `sorted(s, key=key, reverse=True)`, as a stable insertion sort. */
  function SortDesc<T>(s: seq<T>, key: T -> string): (r: seq<T>)
    ensures |r| == |s|
  {
    if s == [] then [] else Insert(s[0], SortDesc(s[1..], key), key)
  }

  lemma {:induction false} InsertMultiset<T>(x: T, s: seq<T>, key: T -> string)
    ensures multiset(Insert(x, s, key)) == multiset(s) + multiset{x}
  {
    if s != [] && StrLt(key(x), key(s[0])) {
      InsertMultiset(x, s[1..], key);
      assert s == [s[0]] + s[1..];
    }
  }

  lemma {:induction false} InsertSorted<T>(x: T, s: seq<T>, key: T -> string)
    requires SortedDesc(s, key)
    ensures SortedDesc(Insert(x, s, key), key)
    ensures forall y :: y in Insert(x, s, key) ==> y == x || y in s
  {
    if s == [] {
    } else if !StrLt(key(x), key(s[0])) {
      var r := [x] + s;
      forall i, j | 0 <= i < j < |r|
        ensures StrGe(key(r[i]), key(r[j]))
      {
        if i == 0 && j > 1 {
          StrGeTransitive(key(x), key(s[0]), key(s[j - 1]));
        }
      }
    } else {
      InsertSorted(x, s[1..], key);
      var rest := Insert(x, s[1..], key);
      var r := [s[0]] + rest;
      forall j | 0 < j < |r|
        ensures StrGe(key(s[0]), key(r[j]))
      {
        assert r[j] in rest;
        if r[j] == x {
          StrLtAsymmetric(key(x), key(s[0]));
        } else {
          var m :| 0 <= m < |s[1..]| && s[1..][m] == r[j];
        }
      }
    }
  }

  /** The sorted list has its keys in non-increasing order ... */
  lemma {:induction false} SortDescSorted<T>(s: seq<T>, key: T -> string)
    ensures SortedDesc(SortDesc(s, key), key)
  {
    if s != [] {
      SortDescSorted(s[1..], key);
      InsertSorted(s[0], SortDesc(s[1..], key), key);
    }
  }

  /** ... and holds exactly the elements it was given. */
  lemma {:induction false} SortDescPermutes<T>(s: seq<T>, key: T -> string)
    ensures multiset(SortDesc(s, key)) == multiset(s)
  {
    if s != [] {
      SortDescPermutes(s[1..], key);
      InsertMultiset(s[0], SortDesc(s[1..], key), key);
      assert s == [s[0]] + s[1..];
    }
  }

  /** No two elements share a key. */
  predicate KeysDistinct<T>(s: seq<T>, key: T -> string) {
    forall i, j :: 0 <= i < j < |s| ==> key(s[i]) != key(s[j])
  }

  lemma {:induction false} InsertDistinct<T>(x: T, s: seq<T>, key: T -> string)
    requires KeysDistinct(s, key)
    requires forall y :: y in s ==> key(y) != key(x)
    ensures KeysDistinct(Insert(x, s, key), key)
  {
    if s != [] && StrLt(key(x), key(s[0])) {
      InsertDistinct(x, s[1..], key);
      var rest := Insert(x, s[1..], key);
      forall j | 0 <= j < |rest| ensures key(s[0]) != key(rest[j]) {
        InsertMembers(x, s[1..], key, rest[j]);
        if rest[j] != x {
          var m :| 0 <= m < |s[1..]| && s[1..][m] == rest[j];
          assert s[m + 1] == rest[j];
        }
      }
    }
  }

  lemma {:induction false} InsertMembers<T>(x: T, s: seq<T>, key: T -> string, y: T)
    requires y in Insert(x, s, key)
    ensures y == x || y in s
  {
    InsertMultiset(x, s, key);
    assert y in multiset(Insert(x, s, key));
  }

  /** Sorting keeps keys apart that were apart. */
  lemma {:induction false} SortDescDistinct<T>(s: seq<T>, key: T -> string)
    requires KeysDistinct(s, key)
    ensures KeysDistinct(SortDesc(s, key), key)
  {
    if s != [] {
      SortDescDistinct(s[1..], key);
      SortDescPermutes(s[1..], key);
      forall y | y in SortDesc(s[1..], key) ensures key(y) != key(s[0]) {
        assert y in multiset(SortDesc(s[1..], key));
        var m :| 0 <= m < |s[1..]| && s[1..][m] == y;
        assert s[m + 1] == y;
      }
      InsertDistinct(s[0], SortDesc(s[1..], key), key);
    }
  }

  /** `s[:n]`. */
  function Take<T>(s: seq<T>, n: nat): (r: seq<T>)
    ensures |r| == if |s| < n then |s| else n
    ensures r == s[..|r|]
  {
    if |s| <= n then s else s[..n]
  }

  /** `s.sort(key=key, reverse=True)` followed by `s[:n]`: the `n` newest elements. */
  function Newest<T>(s: seq<T>, key: T -> string, n: nat): seq<T> {
    Take(SortDesc(s, key), n)
  }

  /** Whatever the newest `n` hold comes from `s`. */
  lemma NewestFrom<T>(s: seq<T>, key: T -> string, n: nat, x: T)
    requires x in Newest(s, key, n)
    ensures x in s
  {
    NewestShape(s, key, n);
    assert x in multiset(Newest(s, key, n));
  }

  /** The newest `n` are sorted, at most `n`, and drawn from `s`. */
  lemma NewestShape<T>(s: seq<T>, key: T -> string, n: nat)
    ensures var r := Newest(s, key, n);
      SortedDesc(r, key) && |r| == (if |s| < n then |s| else n) && multiset(r) <= multiset(s)
  {
    var t := SortDesc(s, key);
    SortDescSorted(s, key);
    SortDescPermutes(s, key);
    var r := Newest(s, key, n);
    assert t == r + t[|r|..];
    assert multiset(t) == multiset(r) + multiset(t[|r|..]);
  }

  /** Taking the newest keeps distinct keys distinct. */
  lemma NewestDistinct<T>(s: seq<T>, key: T -> string, n: nat)
    requires KeysDistinct(s, key)
    ensures KeysDistinct(Newest(s, key, n), key)
  {
    SortDescDistinct(s, key);
  }

  /** Whatever is cut off is no newer than the last element kept. */
  lemma NewestKeepsNewest<T>(s: seq<T>, key: T -> string, n: nat, e: T)
    requires e in s && e !in Newest(s, key, n)
    ensures n > 0 ==> |Newest(s, key, n)| == n && StrGe(key(Newest(s, key, n)[n - 1]), key(e))
  {
    var t := SortDesc(s, key);
    SortDescSorted(s, key);
    SortDescPermutes(s, key);
    assert e in multiset(t);
    var j :| 0 <= j < |t| && t[j] == e;
    assert j >= n;
  }
}
