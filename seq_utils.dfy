/**
  Sequence shapes shared by the import script's sections: the lines a
  `forEach` pushes, a count of the elements a guard accepts, and the
  first-occurrence deduplication that both a `Set` and an explicit `seen`
  set perform.
 */
module SeqUtils {

  /** What a `forEach` that pushes `f(x)` for every `x` of `s`, in order, appends. */
  function ConcatMap<T, U>(s: seq<T>, f: T -> seq<U>): seq<U>
  {
    if s == [] then [] else ConcatMap(s[..|s| - 1], f) + f(s[|s| - 1])
  }

  /** One more iteration of that `forEach`. */
  lemma ConcatMapStep<T, U>(s: seq<T>, f: T -> seq<U>, i: nat)
    requires i < |s|
    ensures ConcatMap(s[..i + 1], f) == ConcatMap(s[..i], f) + f(s[i])
  {
    assert s[..i + 1][..i] == s[..i];
  }

  /** Appending what one more element maps to extends a buffer that held the concatenation so far. */
  lemma ConcatMapPush<T, U>(start: seq<U>, s: seq<T>, f: T -> seq<U>, i: nat, before: seq<U>, after: seq<U>)
    requires i < |s|
    requires before == start + ConcatMap(s[..i], f) && after == before + f(s[i])
    ensures after == start + ConcatMap(s[..i + 1], f)
  {
    ConcatMapStep(s, f, i);
  }

  /** The number of elements of `s` that satisfy `p`. */
  function Count<T>(s: seq<T>, p: T -> bool): (n: nat)
    ensures n <= |s|
  {
    if s == [] then 0 else Count(s[..|s| - 1], p) + (if p(s[|s| - 1]) then 1 else 0)
  }

  lemma CountStep<T>(s: seq<T>, p: T -> bool, i: nat)
    requires i < |s|
    ensures Count(s[..i + 1], p) == Count(s[..i], p) + (if p(s[i]) then 1 else 0)
  {
    assert s[..i + 1][..i] == s[..i];
  }

  /** Appending is associative. */
  lemma AppendAssoc<T>(a: seq<T>, b: seq<T>, c: seq<T>)
    ensures a + (b + c) == (a + b) + c
  {
  }

  /** Three pieces appended one after another are their concatenation appended at once. */
  lemma AppendThree<T>(o: seq<T>, a: seq<T>, b: seq<T>, c: seq<T>)
    ensures o + a + b + c == o + (a + b + c)
  {
  }

  /** The same for four pieces. */
  lemma AppendFour<T>(o: seq<T>, a: seq<T>, b: seq<T>, c: seq<T>, d: seq<T>)
    ensures o + a + b + c + d == o + (a + b + c + d)
  {
  }

  /** `s.filter(p)`. */
  function Filter<T>(s: seq<T>, p: T -> bool): (r: seq<T>)
    ensures |r| == Count(s, p)
    ensures forall i :: 0 <= i < |r| ==> p(r[i])
  {
    if s == [] then [] else Filter(s[..|s| - 1], p) + (if p(s[|s| - 1]) then [s[|s| - 1]] else [])
  }

  /** `s.map(f)`. */
  function Map<T, U>(s: seq<T>, f: T -> U): (r: seq<U>)
    ensures |r| == |s| && forall i :: 0 <= i < |s| ==> r[i] == f(s[i])
  {
    seq(|s|, i requires 0 <= i < |s| => f(s[i]))
  }

  /** Every element either satisfies `p` or does not: the two counts add up to the length. */
  lemma {:induction false} CountComplement<T>(s: seq<T>, p: T -> bool, q: T -> bool)
    requires forall x :: q(x) == !p(x)
    ensures Count(s, p) + Count(s, q) == |s|
  {
    if s != [] {
      CountComplement(s[..|s| - 1], p, q);
    }
  }

  /** When `f` yields `n` items for the elements `p` accepts and none for the rest,
      the whole output holds `n` items per accepted element. */
  lemma {:induction false} ConcatMapLength<T, U>(s: seq<T>, f: T -> seq<U>, p: T -> bool, n: nat)
    requires forall x :: x in s ==> |f(x)| == if p(x) then n else 0
    ensures |ConcatMap(s, f)| == n * Count(s, p)
  {
    if s != [] {
      var init, last := s[..|s| - 1], s[|s| - 1];
      assert ConcatMap(s, f) == ConcatMap(init, f) + f(last);
      assert Count(s, p) == Count(init, p) + (if p(last) then 1 else 0);
      assert forall x :: x in init ==> x in s;
      ConcatMapLength(init, f, p, n);
      assert |f(last)| == (if p(last) then n else 0) by {
        assert last in s;
      }
      MulSucc(n, Count(init, p));
    }
  }

  lemma MulSucc(n: nat, c: nat)
    ensures n * (c + 1) == n * c + n
  {
  }

  /** Every item of the output is an item `f` yields for some element of `s`. */
  lemma {:induction false} ConcatMapAll<T, U>(s: seq<T>, f: T -> seq<U>, p: U -> bool)
    requires forall x, k :: x in s && 0 <= k < |f(x)| ==> p(f(x)[k])
    ensures forall k :: 0 <= k < |ConcatMap(s, f)| ==> p(ConcatMap(s, f)[k])
  {
    if s != [] {
      ConcatMapAll(s[..|s| - 1], f, p);
      var front, last := ConcatMap(s[..|s| - 1], f), f(s[|s| - 1]);
      assert s[|s| - 1] in s;
      forall k | 0 <= k < |front + last| ensures p((front + last)[k]) {
        if k >= |front| {
          assert (front + last)[k] == last[k - |front|];
        }
      }
    }
  }

  /** `a` is `b` with some elements left out, the rest kept in order. */
  predicate IsSubsequence<T(==)>(a: seq<T>, b: seq<T>)
    decreases |b|
  {
    if a == [] then true
    else if b == [] then false
    else (a[0] == b[0] && IsSubsequence(a[1..], b[1..])) || IsSubsequence(a, b[1..])
  }

  /**
    `s.filter(x => { if (seen.has(key(x))) return false; seen.add(key(x)); return true; })`:
    the elements whose key was not met before, starting from the keys in `seen`.
   */
  function FirstByKey<T, K(==)>(s: seq<T>, key: T -> K, seen: set<K>): seq<T>
  {
    if s == [] then []
    else if key(s[0]) in seen then FirstByKey(s[1..], key, seen)
    else [s[0]] + FirstByKey(s[1..], key, seen + {key(s[0])})
  }

  /** Position `j` of `s` holds the first element of `s` with its key. */
  predicate IsFirstOfKey<T, K(==)>(s: seq<T>, key: T -> K, j: int)
    requires 0 <= j < |s|
  {
    forall k :: 0 <= k < j ==> key(s[k]) != key(s[j])
  }

  /** The deduplicated sequence keeps elements of the input, in input order. */
  lemma {:induction false} FirstByKeyIsSubsequence<T, K>(s: seq<T>, key: T -> K, seen: set<K>)
    ensures IsSubsequence(FirstByKey(s, key, seen), s)
  {
    if s != [] {
      if key(s[0]) in seen {
        FirstByKeyIsSubsequence(s[1..], key, seen);
      } else {
        FirstByKeyIsSubsequence(s[1..], key, seen + {key(s[0])});
      }
    }
  }

  /** No element of `r` has a key in `seen`. */
  predicate KeysOutside<T, K>(r: seq<T>, key: T -> K, seen: set<K>) {
    forall i :: 0 <= i < |r| ==> key(r[i]) !in seen
  }

  /** No two elements of `r` share a key. */
  predicate KeysDistinct<T, K(==)>(r: seq<T>, key: T -> K) {
    forall i, j :: 0 <= i < j < |r| ==> key(r[i]) != key(r[j])
  }

  /** The keys of the deduplicated sequence are pairwise distinct and none was already seen. */
  lemma {:induction false} FirstByKeyDistinct<T, K>(s: seq<T>, key: T -> K, seen: set<K>)
    ensures KeysOutside(FirstByKey(s, key, seen), key, seen)
    ensures KeysDistinct(FirstByKey(s, key, seen), key)
  {
    var r := FirstByKey(s, key, seen);
    if s != [] {
      var k0 := key(s[0]);
      if k0 in seen {
        assert r == FirstByKey(s[1..], key, seen);
        FirstByKeyDistinct(s[1..], key, seen);
      } else {
        var rest := FirstByKey(s[1..], key, seen + {k0});
        assert r == [s[0]] + rest;
        FirstByKeyDistinct(s[1..], key, seen + {k0});
        assert forall i :: 0 <= i < |rest| ==> key(rest[i]) !in seen + {k0};
        forall i | 0 <= i < |r| ensures key(r[i]) !in seen {
          if i > 0 {
            assert r[i] == rest[i - 1];
          }
        }
        forall i, j | 0 <= i < j < |r| ensures key(r[i]) != key(r[j]) {
          assert r[j] == rest[j - 1];
          if i > 0 {
            assert r[i] == rest[i - 1];
          } else {
            assert key(rest[j - 1]) !in seen + {k0};
          }
        }
      }
    }
  }

  /**
    What survives is exactly the first occurrence of every key not already seen:
    each kept element stands at the first position of its key, and every such
    first position is kept.
   */
  lemma {:induction false} FirstByKeyKeepsFirstOccurrences<T, K>(s: seq<T>, key: T -> K, seen: set<K>)
    ensures forall i :: 0 <= i < |FirstByKey(s, key, seen)| ==>
              exists j :: 0 <= j < |s| && s[j] == FirstByKey(s, key, seen)[i] && key(s[j]) !in seen
                          && IsFirstOfKey(s, key, j)
    ensures forall j :: 0 <= j < |s| && key(s[j]) !in seen && IsFirstOfKey(s, key, j) ==>
              s[j] in FirstByKey(s, key, seen)
  {
    if s != [] {
      var k0 := key(s[0]);
      var seen' := if k0 in seen then seen else seen + {k0};
      var rest := FirstByKey(s[1..], key, seen');
      FirstByKeyKeepsFirstOccurrences(s[1..], key, seen');
      var r := FirstByKey(s, key, seen);
      assert r == if k0 in seen then rest else [s[0]] + rest;
      forall i | 0 <= i < |r|
        ensures exists j :: 0 <= j < |s| && s[j] == r[i] && key(s[j]) !in seen && IsFirstOfKey(s, key, j)
      {
        if k0 !in seen && i == 0 {
          assert 0 <= 0 < |s| && s[0] == r[i] && key(s[0]) !in seen && IsFirstOfKey(s, key, 0);
        } else {
          var i' := if k0 in seen then i else i - 1;
          assert r[i] == rest[i'];
          var j' :| 0 <= j' < |s[1..]| && s[1..][j'] == rest[i'] && key(s[1..][j']) !in seen'
                    && IsFirstOfKey(s[1..], key, j');
          assert s[j' + 1] == s[1..][j'];
          assert IsFirstOfKey(s, key, j' + 1) by {
            forall k | 0 <= k < j' + 1 ensures key(s[k]) != key(s[j' + 1]) {
              if k > 0 {
                assert s[k] == s[1..][k - 1];
              }
            }
          }
          assert 0 <= j' + 1 < |s| && s[j' + 1] == r[i] && key(s[j' + 1]) !in seen && IsFirstOfKey(s, key, j' + 1);
        }
      }
      forall j | 0 <= j < |s| && key(s[j]) !in seen && IsFirstOfKey(s, key, j)
        ensures s[j] in r
      {
        if j > 0 {
          assert s[1..][j - 1] == s[j];
          assert key(s[j]) != k0;
          assert IsFirstOfKey(s[1..], key, j - 1) by {
            forall k | 0 <= k < j - 1 ensures key(s[1..][k]) != key(s[1..][j - 1]) {
              assert s[1..][k] == s[k + 1];
            }
          }
        }
      }
    } else {
      assert FirstByKey(s, key, seen) == [];
    }
  }

  /** Every key that occurs in `s` has a first position. */
  lemma {:induction false} FirstOfKeyExists<T, K>(s: seq<T>, key: T -> K, x: T) returns (j: nat)
    requires x in s
    ensures j < |s| && key(s[j]) == key(x) && IsFirstOfKey(s, key, j)
  {
    if key(s[0]) == key(x) {
      j := 0;
    } else {
      assert x in s[1..];
      var j' := FirstOfKeyExists(s[1..], key, x);
      j := j' + 1;
      assert s[j] == s[1..][j'];
      forall k | 0 <= k < j ensures key(s[k]) != key(s[j]) {
        if k > 0 {
          assert s[k] == s[1..][k - 1];
        }
      }
    }
  }

  /** A subsequence of a subsequence is a subsequence. */
  lemma {:induction false} SubsequenceTransitive<T>(a: seq<T>, b: seq<T>, c: seq<T>)
    requires IsSubsequence(a, b) && IsSubsequence(b, c)
    ensures IsSubsequence(a, c)
    decreases |c|
  {
    if a != [] {
      if b[0] == c[0] && IsSubsequence(b[1..], c[1..]) {
        if a[0] == b[0] && IsSubsequence(a[1..], b[1..]) {
          SubsequenceTransitive(a[1..], b[1..], c[1..]);
        } else {
          SubsequenceTransitive(a, b[1..], c[1..]);
        }
      } else {
        SubsequenceTransitive(a, b, c[1..]);
      }
    }
  }

  /** Every element of a subsequence is an element of the whole. */
  lemma {:induction false} SubsequenceMembers<T>(a: seq<T>, b: seq<T>)
    requires IsSubsequence(a, b)
    ensures forall i :: 0 <= i < |a| ==> a[i] in b
    decreases |b|
  {
    if a != [] && b != [] {
      if a[0] == b[0] && IsSubsequence(a[1..], b[1..]) {
        SubsequenceMembers(a[1..], b[1..]);
        forall i | 0 <= i < |a| ensures a[i] in b {
          if i > 0 {
            assert a[i] == a[1..][i - 1];
          }
        }
      } else {
        SubsequenceMembers(a, b[1..]);
      }
    }
  }

  /** A subsequence of a sequence without repeats has no repeats. */
  lemma {:induction false} SubsequenceDistinct<T>(a: seq<T>, b: seq<T>)
    requires IsSubsequence(a, b)
    requires forall i, j :: 0 <= i < j < |b| ==> b[i] != b[j]
    ensures forall i, j :: 0 <= i < j < |a| ==> a[i] != a[j]
    decreases |b|
  {
    if a != [] && b != [] {
      if a[0] == b[0] && IsSubsequence(a[1..], b[1..]) {
        SubsequenceDistinct(a[1..], b[1..]);
        SubsequenceMembers(a[1..], b[1..]);
        forall i, j | 0 <= i < j < |a| ensures a[i] != a[j] {
          assert a[j] == a[1..][j - 1];
          if i > 0 {
            assert a[i] == a[1..][i - 1];
          } else {
            var k :| 0 <= k < |b[1..]| && b[1..][k] == a[j];
            assert b[k + 1] == a[j];
          }
        }
      } else {
        SubsequenceDistinct(a, b[1..]);
      }
    }
  }

  /** `s.filter(p)` keeps elements of `s` in order. */
  lemma {:induction false} FilterSubsequence<T>(s: seq<T>, p: T -> bool)
    ensures IsSubsequence(Filter(s, p), s)
  {
    if s != [] {
      FilterSubsequence(s[..|s| - 1], p);
      SubsequenceAppend(Filter(s[..|s| - 1], p), s[..|s| - 1], if p(s[|s| - 1]) then [s[|s| - 1]] else [], [s[|s| - 1]]);
      assert s[..|s| - 1] + [s[|s| - 1]] == s;
    }
  }

  /** Filtering an element followed by a sequence: the element (when it passes) and then the filtered rest. */
  lemma {:induction false} FilterCons<T>(x: T, t: seq<T>, p: T -> bool)
    ensures Filter([x] + t, p) == (if p(x) then [x] else []) + Filter(t, p)
  {
    var s := [x] + t;
    if t == [] {
      assert s[..|s| - 1] == [];
    } else {
      assert s[..|s| - 1] == [x] + t[..|t| - 1];
      assert s[|s| - 1] == t[|t| - 1];
      FilterCons(x, t[..|t| - 1], p);
    }
  }

  /** An element is kept by `s.filter(p)` exactly when it is in `s` and satisfies `p`. */
  lemma {:induction false} FilterMembers<T>(s: seq<T>, p: T -> bool, x: T)
    ensures x in Filter(s, p) <==> x in s && p(x)
  {
    if s != [] {
      var init, last := s[..|s| - 1], s[|s| - 1];
      FilterMembers(init, p, x);
      assert s == init + [last];
    }
  }

  /** Subsequences concatenate. */
  lemma {:induction false} SubsequenceAppend<T>(a: seq<T>, b: seq<T>, c: seq<T>, d: seq<T>)
    requires IsSubsequence(a, b) && IsSubsequence(c, d)
    ensures IsSubsequence(a + c, b + d)
    decreases |b|
  {
    if a == [] {
      SubsequenceSuffix(c, b, d);
      assert a + c == c;
    } else if a[0] == b[0] && IsSubsequence(a[1..], b[1..]) {
      SubsequenceAppend(a[1..], b[1..], c, d);
      assert (a + c)[1..] == a[1..] + c;
      assert (b + d)[1..] == b[1..] + d;
    } else {
      SubsequenceAppend(a, b[1..], c, d);
      assert (b + d)[1..] == b[1..] + d;
    }
  }

  /** A subsequence of `d` is a subsequence of `b + d`. */
  lemma {:induction false} SubsequenceSuffix<T>(c: seq<T>, b: seq<T>, d: seq<T>)
    requires IsSubsequence(c, d)
    ensures IsSubsequence(c, b + d)
    decreases |b|
  {
    if b != [] {
      SubsequenceSuffix(c, b[1..], d);
      assert (b + d)[1..] == b[1..] + d;
      if c != [] {
        assert IsSubsequence(c, (b + d)[1..]);
      }
    } else {
      assert b + d == d;
    }
  }

}
