/** Vocabulary shared by the models: optional values and order-preserving selections. */
module Common {
  datatype Option<+T> = None | Some(value: T)

  /** `at` lists, in increasing order, the positions of `s` whose elements make up `t`. */
  ghost predicate Selects<T>(at: seq<nat>, s: seq<T>, t: seq<T>) {
    && |at| == |t|
    && (forall i :: 0 <= i < |at| ==> at[i] < |s| && s[at[i]] == t[i])
    && (forall i, j :: 0 <= i < j < |at| ==> at[i] < at[j])
  }

  ghost predicate Subsequence<T>(t: seq<T>, s: seq<T>) {
    exists at: seq<nat> :: Selects(at, s, t)
  }

  /** Selecting from a selection is a selection. */
  lemma SelectsTransitive<T>(p: seq<nat>, q: seq<nat>, r: seq<T>, s: seq<T>, t: seq<T>) returns (at: seq<nat>)
    requires Selects(p, r, s) && Selects(q, s, t)
    ensures Selects(at, r, t) && |at| == |q| <= |t|
    ensures |p| > 0 && |q| > 0 && q[|q| - 1] == |p| - 1 ==> at[|at| - 1] == p[|p| - 1]
  {
    at := seq(|q|, i requires 0 <= i < |q| => p[q[i]]);
    forall i | 0 <= i < |at| ensures at[i] < |r| && r[at[i]] == t[i] {
      assert at[i] == p[q[i]] && s[q[i]] == t[i];
    }
  }

  lemma SubsequenceTransitive<T>(t: seq<T>, s: seq<T>, r: seq<T>)
    requires Subsequence(t, s) && Subsequence(s, r)
    ensures Subsequence(t, r)
  {
    var q: seq<nat> :| Selects(q, s, t);
    var p: seq<nat> :| Selects(p, r, s);
    var at := SelectsTransitive(p, q, r, s, t);
  }

  lemma SubsequenceSnoc<T>(t: seq<T>, s: seq<T>)
    requires s != [] && Subsequence(t, s[..|s| - 1])
    ensures Subsequence(t, s) && Subsequence(t + [s[|s| - 1]], s) && t + [] == t
  {
    var at: seq<nat> :| Selects(at, s[..|s| - 1], t);
    assert Selects(at, s, t);
    assert Selects(at + [|s| - 1], s, t + [s[|s| - 1]]);
  }

  lemma SubsequenceOfItself<T>(s: seq<T>)
    ensures Subsequence(s, s)
  {
    assert Selects(seq(|s|, i => i), s, s);
  }

  predicate Contains(s: string, part: string)
    decreases |s|
  {
    part <= s || (s != "" && Contains(s[1..], part))
  }

  predicate OccursAt(s: string, part: string, i: nat) {
    i + |part| <= |s| && s[i..i + |part|] == part
  }

  lemma SliceOfTail(s: string, i: nat, n: nat)
    requires 0 < i && i + n <= |s|
    ensures s[i..i + n] == s[1..][i - 1..i - 1 + n]
  {
    var a, b := s[i..i + n], s[1..][i - 1..i - 1 + n];
    assert |a| == |b| == n;
    forall k | 0 <= k < n ensures a[k] == b[k] {
      assert b[k] == s[1..][i - 1 + k] == s[i + k] == a[k];
    }
  }

  /** Python's `part in s`. */
  lemma {:induction false} ContainsIff(s: string, part: string)
    ensures Contains(s, part) <==> exists i: nat :: OccursAt(s, part, i)
    decreases |s|
  {
    if part <= s {
      assert OccursAt(s, part, 0);
    } else if s != "" {
      ContainsIff(s[1..], part);
      forall i: nat ensures i > 0 ==> OccursAt(s, part, i) == OccursAt(s[1..], part, i - 1) {
        if 0 < i <= |s| - |part| {
          SliceOfTail(s, i, |part|);
        }
      }
      if i: nat :| OccursAt(s[1..], part, i) {
        assert OccursAt(s, part, i + 1);
      }
    }
  }

  function Pow2(c: nat): (p: nat)
    ensures p >= 1 && (c > 0 ==> p >= 2)
  {
    if c == 0 then 1 else 2 * Pow2(c - 1)
  }

  // ---------- Python's split and join ----------

  /** Position of the first `sep` at or after `i`, or |s|. */
  function Find(s: string, sep: string, i: nat): (p: nat)
    requires sep != "" && i <= |s|
    ensures i <= p <= |s| && (p < |s| ==> p + |sep| <= |s| && s[p..p + |sep|] == sep)
    decreases |s| - i
  {
    if i + |sep| > |s| then |s| else if s[i..i + |sep|] == sep then i else Find(s, sep, i + 1)
  }

  lemma {:induction false} FindSkipsNone(s: string, sep: string, i: nat)
    requires sep != "" && i <= |s|
    ensures forall q: nat :: i <= q < Find(s, sep, i) ==> !OccursAt(s, sep, q)
    ensures Find(s, sep, i) < |s| ==> OccursAt(s, sep, Find(s, sep, i))
    ensures Find(s, sep, i) == |s| ==> !OccursAt(s, sep, |s|)
    decreases |s| - i
  {
    if i + |sep| <= |s| && s[i..i + |sep|] != sep {
      FindSkipsNone(s, sep, i + 1);
    }
  }

  /** What is in front of the first separator holds none. */
  lemma FrontLacksSep(s: string, sep: string)
    requires sep != ""
    ensures !Contains(s[..Find(s, sep, 0)], sep)
    ensures Find(s, sep, 0) < |s| <==> Contains(s, sep)
  {
    hide Find, Contains;
    var p := Find(s, sep, 0);
    FindSkipsNone(s, sep, 0);
    ContainsIff(s[..p], sep);
    ContainsIff(s, sep);
    forall i: nat ensures !OccursAt(s[..p], sep, i) {
      if i + |sep| <= p {
        assert s[..p][i..i + |sep|] == s[i..i + |sep|];
        assert !OccursAt(s, sep, i);
      }
    }
    if p == |s| {
      forall i: nat ensures !OccursAt(s, sep, i) {
      }
    }
  }

  /** s.split(sep) */
  function Split(s: string, sep: string): (parts: seq<string>)
    requires sep != ""
    ensures |parts| >= 1
    decreases |s|
  {
    var p := Find(s, sep, 0);
    if p == |s| then [s] else [s[..p]] + Split(s[p + |sep|..], sep)
  }

  lemma {:induction false} PartsLackSep(s: string, sep: string)
    requires sep != ""
    ensures forall part :: part in Split(s, sep) ==> !Contains(part, sep)
    ensures |Split(s, sep)| > 1 <==> Contains(s, sep)
    decreases |s|
  {
    hide Find, Contains;
    var p := Find(s, sep, 0);
    FrontLacksSep(s, sep);
    if p < |s| {
      PartsLackSep(s[p + |sep|..], sep);
    } else {
      assert s[..p] == s;
    }
  }

  /** sep.join(parts) */
  function Join(parts: seq<string>, sep: string): string {
    if parts == [] then ""
    else if |parts| == 1 then parts[0]
    else parts[0] + sep + Join(parts[1..], sep)
  }

  lemma JoinHead(parts: seq<string>)
    requires parts != []
    ensures Join(parts, "") == parts[0] + Join(parts[1..], "")
  {
    if |parts| == 1 {
      assert parts[1..] == [] && parts[0] + "" == parts[0];
    } else {
      assert parts[0] + "" == parts[0];
    }
  }

  lemma {:induction false} JoinConcat(a: seq<string>, b: seq<string>)
    ensures Join(a + b, "") == Join(a, "") + Join(b, "")
  {
    if a == [] {
      assert a + b == b && "" + Join(b, "") == Join(b, "");
    } else {
      JoinHead(a);
      JoinHead(a + b);
      assert (a + b)[1..] == a[1..] + b;
      JoinConcat(a[1..], b);
    }
  }

  lemma {:induction false} JoinUndoesSplit(s: string, sep: string)
    requires sep != ""
    ensures Join(Split(s, sep), sep) == s
    decreases |s|
  {
    var p := Find(s, sep, 0);
    if p < |s| {
      JoinUndoesSplit(s[p + |sep|..], sep);
      assert Split(s, sep)[1..] == Split(s[p + |sep|..], sep);
      assert s == s[..p] + s[p..p + |sep|] + s[p + |sep|..];
    }
  }

  /** With a separator of one character, splitting undoes joining if no part holds that character. */
  lemma {:induction false} SplitUndoesJoin(parts: seq<string>, c: char)
    requires parts != [] && forall part :: part in parts ==> c !in part
    ensures Split(Join(parts, [c]), [c]) == parts
  {
    hide Find;
    var s := Join(parts, [c]);
    assert c !in parts[0] by {
      assert parts[0] in parts;
    }
    if |parts| == 1 {
      FindSkips(s, "", c, 0);
      assert s + "" == s;
      assert parts == [s];
    } else {
      SplitUndoesJoin(parts[1..], c);
      var rest := Join(parts[1..], [c]);
      FindSkips(parts[0], [c] + rest, c, 0);
      assert s == parts[0] + ([c] + rest);
      assert s[|parts[0]| + 1..] == rest;
      assert s[..|parts[0]|] == parts[0];
    }
  }

  lemma {:induction false} PartsHoldNone(s: string, c: char)
    ensures forall part :: part in Split(s, [c]) ==> c !in part
    decreases |s|
  {
    var p := Find(s, [c], 0);
    FindIsFirst(s, c, 0);
    if p < |s| {
      PartsHoldNone(s[p + 1..], c);
    }
  }

  lemma {:induction false} FindIsFirst(s: string, c: char, i: nat)
    requires i <= |s|
    ensures c !in s[i..Find(s, [c], i)]
    decreases |s| - i
  {
    if i < |s| && s[i] != c {
      assert s[i..i + 1] == [s[i]];
      FindIsFirst(s, c, i + 1);
      var p := Find(s, [c], i);
      assert s[i..p] == [s[i]] + s[i + 1..p];
    } else if i < |s| {
      assert s[i..i + 1] == [c];
    }
  }

  lemma {:induction false} FindSkips(head: string, tail: string, c: char, i: nat)
    requires c !in head && i <= |head| && (tail != "" ==> tail[0] == c)
    ensures Find(head + tail, [c], i) == |head|
    decreases |head| - i
  {
    var s := head + tail;
    if i < |head| {
      assert s[i..i + 1] == [head[i]];
      FindSkips(head, tail, c, i + 1);
    } else if tail != "" {
      assert s[i..i + 1] == [tail[0]];
    }
  }
}
