/** Python's order on strings, and `sorted`: the stable sort. */
module Ordering {
  /** Lexicographic order by code point. */
  predicate Leq(a: string, b: string) {
    a == "" || (b != "" && (a[0] < b[0] || (a[0] == b[0] && Leq(a[1..], b[1..]))))
  }

  /** A proper front comes first; otherwise the first difference decides. */
  lemma {:induction false} LeqIsLexicographic(a: string, b: string)
    ensures Leq(a, b) <==>
              a <= b || exists i :: 0 <= i < |a| && i < |b| && a[..i] == b[..i] && a[i] < b[i]
  {
    if a == "" {
    } else if b == "" {
    } else if a[0] != b[0] {
      if a[0] < b[0] {
        assert a[..0] == b[..0];
      }
      forall i | 0 <= i < |a| && i < |b| && a[..i] == b[..i] ensures i == 0 {
        SameFront(a, b, i);
      }
    } else {
      LeqIsLexicographic(a[1..], b[1..]);
      assert a <= b <==> a[1..] <= b[1..] by {
        assert a == [a[0]] + a[1..] && b == [b[0]] + b[1..];
      }
      if i :| 0 <= i < |a[1..]| && i < |b[1..]| && a[1..][..i] == b[1..][..i] && a[1..][i] < b[1..][i] {
        assert a[..i + 1] == [a[0]] + a[1..][..i] && b[..i + 1] == [b[0]] + b[1..][..i];
      }
      if i :| 0 <= i < |a| && i < |b| && a[..i] == b[..i] && a[i] < b[i] {
        assert a[1..][..i - 1] == a[..i][1..] == b[..i][1..] == b[1..][..i - 1];
      }
    }
  }

  lemma SameFront(a: string, b: string, i: nat)
    requires i < |a| && i < |b| && a[..i] == b[..i]
    ensures i > 0 ==> a[0] == b[0]
  {
    if i > 0 {
      assert a[..i][0] == b[..i][0];
    }
  }

  predicate Less(a: string, b: string) {
    Leq(a, b) && a != b
  }

  lemma {:induction false} LeqTotal(a: string, b: string)
    ensures Leq(a, b) || Leq(b, a)
    ensures Leq(a, b) && Leq(b, a) ==> a == b
    ensures a == b ==> Leq(a, b)
  {
    if a != "" && b != "" && a[0] == b[0] {
      LeqTotal(a[1..], b[1..]);
      assert a == [a[0]] + a[1..] && b == [b[0]] + b[1..];
    }
  }

  lemma {:induction false} LeqTransitive(a: string, b: string, c: string)
    requires Leq(a, b) && Leq(b, c)
    ensures Leq(a, c)
  {
    if a != "" && a[0] == b[0] == c[0] {
      LeqTransitive(a[1..], b[1..], c[1..]);
    }
  }

  // ---------- Sorting rows by a string key ----------

  /** Puts x before the first element whose key is not smaller, so that it stays ahead of its equals. */
  function InsertByKey<T>(x: T, s: seq<T>, key: T -> string): (r: seq<T>)
    ensures |r| == |s| + 1 && multiset(r) == multiset{x} + multiset(s)
  {
    if s == [] then [x]
    else if Leq(key(x), key(s[0])) then
      assert multiset([x] + s) == multiset{x} + multiset(s);
      [x] + s
    else
      var r := [s[0]] + InsertByKey(x, s[1..], key);
      assert s == [s[0]] + s[1..];
      assert multiset(r) == multiset{s[0]} + multiset(InsertByKey(x, s[1..], key));
      r
  }

  /** sorted(s, key=key) */
  function SortByKey<T>(s: seq<T>, key: T -> string): (r: seq<T>)
    ensures |r| == |s| && multiset(r) == multiset(s)
  {
    if s == [] then []
    else
      assert s == [s[0]] + s[1..];
      InsertByKey(s[0], SortByKey(s[1..], key), key)
  }

  ghost predicate Sorted<T(!new)>(s: seq<T>, key: T -> string) {
    forall i, j :: 0 <= i < j < |s| ==> Leq(key(s[i]), key(s[j]))
  }

  /** The elements with key k, in order. */
  function WithKey<T>(s: seq<T>, key: T -> string, k: string): seq<T> {
    if s == [] then [] else (if key(s[0]) == k then [s[0]] else []) + WithKey(s[1..], key, k)
  }

  lemma {:induction false} InsertSorts<T(!new)>(x: T, s: seq<T>, key: T -> string)
    requires Sorted(s, key)
    ensures Sorted(InsertByKey(x, s, key), key)
  {
    var r := InsertByKey(x, s, key);
    if s == [] {
    } else if Leq(key(x), key(s[0])) {
      forall i, j | 0 <= i < j < |r| ensures Leq(key(r[i]), key(r[j])) {
        if i == 0 && j > 1 {
          LeqTransitive(key(x), key(s[0]), key(s[j - 1]));
        }
      }
    } else {
      InsertSorts(x, s[1..], key);
      LeqTotal(key(x), key(s[0]));
      forall j | 0 < j < |r| ensures Leq(key(r[0]), key(r[j])) {
        assert r[j] in multiset(r[1..]);
        assert multiset(r[1..]) == multiset{x} + multiset(s[1..]);
        if r[j] != x {
          assert r[j] in s[1..];
        }
      }
    }
  }

  lemma WithKeyHead<T>(x: T, s: seq<T>, key: T -> string, k: string)
    ensures WithKey([x] + s, key, k) == (if key(x) == k then [x] else []) + WithKey(s, key, k)
  {
    assert ([x] + s)[1..] == s;
  }

  lemma InsertCases<T>(x: T, s: seq<T>, key: T -> string)
    ensures InsertByKey(x, s, key) ==
            if s == [] || Leq(key(x), key(s[0])) then [x] + s else [s[0]] + InsertByKey(x, s[1..], key)
  {
    hide Leq;
    assert [x] + [] == [x];
  }

  lemma PassEmpty<T>(a: seq<T>, b: seq<T>, c: seq<T>)
    requires a == [] || b == []
    ensures b + (a + c) == a + (b + c)
  {
  }

  lemma {:induction false} InsertIsStable<T(!new)>(x: T, s: seq<T>, key: T -> string, k: string)
    requires Sorted(s, key)
    ensures WithKey(InsertByKey(x, s, key), key, k) == (if key(x) == k then [x] else []) + WithKey(s, key, k)
  {
    hide Leq, WithKey, InsertByKey;
    InsertCases(x, s, key);
    if s == [] || Leq(key(x), key(s[0])) {
      WithKeyHead(x, s, key, k);
    } else {
      var more := InsertByKey(x, s[1..], key);
      InsertIsStable(x, s[1..], key, k);
      WithKeyHead(s[0], more, key, k);
      WithKeyHead(s[0], s[1..], key, k);
      assert s == [s[0]] + s[1..];
      LeqTotal(key(x), key(s[0]));
      PassEmpty(if key(x) == k then [x] else [], if key(s[0]) == k then [s[0]] else [], WithKey(s[1..], key, k));
    }
  }

  /** The result is sorted, and elements of equal key keep their order. */
  lemma {:induction false} SortByKeyIsStable<T(!new)>(s: seq<T>, key: T -> string)
    ensures Sorted(SortByKey(s, key), key)
    ensures forall k :: WithKey(SortByKey(s, key), key, k) == WithKey(s, key, k)
  {
    if s != [] {
      SortByKeyIsStable(s[1..], key);
      InsertSorts(s[0], SortByKey(s[1..], key), key);
      forall k ensures WithKey(SortByKey(s, key), key, k) == WithKey(s, key, k) {
        InsertIsStable(s[0], SortByKey(s[1..], key), key, k);
      }
    }
  }

  // ---------- Sums do not depend on order ----------

  function SumOf<T>(s: seq<T>, f: T -> int): int {
    if s == [] then 0 else f(s[0]) + SumOf(s[1..], f)
  }

  lemma {:induction false} SumOfConcat<T>(a: seq<T>, b: seq<T>, f: T -> int)
    ensures SumOf(a + b, f) == SumOf(a, f) + SumOf(b, f)
  {
    if a == [] {
      assert a + b == b;
    } else {
      assert (a + b)[1..] == a[1..] + b;
      SumOfConcat(a[1..], b, f);
    }
  }

  lemma SumOfSnoc<T>(s: seq<T>, t: T, f: T -> int)
    ensures SumOf(s + [t], f) == SumOf(s, f) + f(t)
  {
    SumOfConcat(s, [t], f);
    assert [t][1..] == [];
  }

  lemma {:induction false} SumOfWithout<T>(s: seq<T>, f: T -> int, i: nat)
    requires i < |s|
    ensures SumOf(s, f) == f(s[i]) + SumOf(s[..i] + s[i + 1..], f)
  {
    if i == 0 {
      assert s[..0] + s[1..] == s[1..];
    } else {
      SumOfWithout(s[1..], f, i - 1);
      var t := s[..i] + s[i + 1..];
      assert t[0] == s[0] && t[1..] == s[1..][..i - 1] + s[1..][i..];
    }
  }

  lemma {:induction false} SumOfPermutation<T>(a: seq<T>, b: seq<T>, f: T -> int)
    requires multiset(a) == multiset(b)
    ensures SumOf(a, f) == SumOf(b, f)
    decreases |a|
  {
    assert |a| == |multiset(a)| == |multiset(b)| == |b|;
    if a != [] {
      assert a[0] in multiset(b);
      var i :| 0 <= i < |b| && b[i] == a[0];
      WithoutOne(a, 0);
      WithoutOne(b, i);
      SumOfWithout(a, f, 0);
      SumOfWithout(b, f, i);
      SumOfPermutation(a[..0] + a[1..], b[..i] + b[i + 1..], f);
    }
  }

  lemma WithoutOne<T>(s: seq<T>, i: nat)
    requires i < |s|
    ensures multiset(s[..i] + s[i + 1..]) == multiset(s) - multiset{s[i]}
  {
    assert s == s[..i] + [s[i]] + s[i + 1..];
  }
}
