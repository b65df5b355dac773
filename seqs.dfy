/** Sequence helpers behind the source's `Array.prototype.filter`, `map`,
    `some` and the `Array.from(new Set(...))` de-duplication. */
module Seqs {

  /** `a` is obtained from `b` by deleting elements: order is kept. */
  predicate IsSubsequence<T(==)>(a: seq<T>, b: seq<T>)
    decreases |b|
  {
    |a| == 0 ||
    (|b| > 0 && ((a[0] == b[0] && IsSubsequence(a[1..], b[1..])) || IsSubsequence(a, b[1..])))
  }

  lemma {:induction false} SubsequenceTransitive<T>(a: seq<T>, b: seq<T>, c: seq<T>)
    requires IsSubsequence(a, b) && IsSubsequence(b, c)
    ensures IsSubsequence(a, c)
    decreases |c|
  {
    if |a| > 0 {
      if b[0] == c[0] && IsSubsequence(b[1..], c[1..]) {
        if a[0] == b[0] && IsSubsequence(a[1..], b[1..]) {
          SubsequenceTransitive(a[1..], b[1..], c[1..]);
        } else {
          SubsequenceTransitive(a, b[1..], c[1..]);
        }
      } else {
        SubsequenceTransitive(a, b, c[1..]);
      }
    }
  }

  lemma {:induction false} SubsequenceReflexive<T>(s: seq<T>)
    ensures IsSubsequence(s, s)
    decreases |s|
  {
    if |s| > 0 {
      SubsequenceReflexive(s[1..]);
    }
  }

  /** A subsequence is no longer than the sequence. */
  lemma {:induction false} SubsequenceLength<T>(a: seq<T>, b: seq<T>)
    requires IsSubsequence(a, b)
    ensures |a| <= |b|
    decreases |b|
  {
    if |a| > 0 {
      if a[0] == b[0] && IsSubsequence(a[1..], b[1..]) {
        SubsequenceLength(a[1..], b[1..]);
      } else {
        SubsequenceLength(a, b[1..]);
      }
    }
  }

  /** `Array.prototype.filter`: the elements satisfying `f`, in their order. */
  function Filter<T(!new)>(s: seq<T>, f: T -> bool): (r: seq<T>)
    ensures |r| <= |s|
    ensures forall x :: x in r <==> x in s && f(x)
    ensures IsSubsequence(r, s)
    decreases |s|
  {
    if |s| == 0 then []
    else if f(s[0]) then [s[0]] + Filter(s[1..], f)
    else Filter(s[1..], f)
  }

  /** Filtering with a predicate that holds everywhere changes nothing. */
  lemma {:induction false} FilterKeepsAll<T(!new)>(s: seq<T>, f: T -> bool)
    requires forall i :: 0 <= i < |s| ==> f(s[i])
    ensures Filter(s, f) == s
    decreases |s|
  {
    if |s| > 0 {
      FilterKeepsAll(s[1..], f);
    }
  }

  /** Filters that agree on every element give the same result. */
  lemma {:induction false} FilterCongruent<T(!new)>(s: seq<T>, f: T -> bool, g: T -> bool)
    requires forall i :: 0 <= i < |s| ==> f(s[i]) == g(s[i])
    ensures Filter(s, f) == Filter(s, g)
    decreases |s|
  {
    if |s| > 0 {
      FilterCongruent(s[1..], f, g);
    }
  }

  lemma {:induction false} FilterAppend<T(!new)>(a: seq<T>, b: seq<T>, f: T -> bool)
    ensures Filter(a + b, f) == Filter(a, f) + Filter(b, f)
    decreases |a|
  {
    if |a| > 0 {
      var ab := a + b;
      assert ab[0] == a[0] && ab[1..] == a[1..] + b;
      FilterAppend(a[1..], b, f);
      if f(a[0]) {
        assert Filter(ab, f) == [a[0]] + Filter(a[1..] + b, f);
        assert Filter(a, f) == [a[0]] + Filter(a[1..], f);
      } else {
        assert Filter(ab, f) == Filter(a[1..] + b, f);
        assert Filter(a, f) == Filter(a[1..], f);
      }
    } else {
      assert a + b == b;
    }
  }

  /** `Array.prototype.map`. */
  function Map<T, U>(s: seq<T>, g: T -> U): (r: seq<U>)
    ensures |r| == |s|
    ensures forall i :: 0 <= i < |s| ==> r[i] == g(s[i])
  {
    seq(|s|, i requires 0 <= i < |s| => g(s[i]))
  }

  predicate NoDuplicates<T(==)>(s: seq<T>) {
    forall i, j :: 0 <= i < j < |s| ==> s[i] != s[j]
  }

  /** Position of the first occurrence of `x` in `s`. */
  function FirstIndex<T(==)>(s: seq<T>, x: T): (i: nat)
    requires x in s
    ensures i < |s| && s[i] == x
    decreases |s|
  {
    if s[0] == x then 0 else 1 + FirstIndex(s[1..], x)
  }

  /** Insertion into a JavaScript `Set` that already holds `seen`, read back
      in insertion order: each element is kept at its first appearance. */
  function DedupFrom<T(==,!new)>(s: seq<T>, seen: set<T>): seq<T>
    decreases |s|
  {
    if |s| == 0 then []
    else if s[0] in seen then DedupFrom(s[1..], seen)
    else [s[0]] + DedupFrom(s[1..], seen + {s[0]})
  }

  /** What is kept: every element of `s` not in `seen`, each once. */
  lemma {:induction false} DedupFromSpec<T(!new)>(s: seq<T>, seen: set<T>)
    ensures NoDuplicates(DedupFrom(s, seen))
    ensures forall x :: x in DedupFrom(s, seen) <==> x in s && x !in seen
    decreases |s|
  {
    if |s| > 0 {
      if s[0] in seen {
        DedupFromSpec(s[1..], seen);
      } else {
        var rest := DedupFrom(s[1..], seen + {s[0]});
        DedupFromSpec(s[1..], seen + {s[0]});
        assert DedupFrom(s, seen) == [s[0]] + rest;
      }
    }
  }

  /** `Array.from(new Set(s))`. */
  function Dedup<T(==,!new)>(s: seq<T>): (r: seq<T>)
    ensures NoDuplicates(r)
    ensures forall x :: x in r <==> x in s
  {
    DedupFromSpec(s, {});
    DedupFrom(s, {})
  }

  lemma FirstIndexTail<T>(s: seq<T>, x: T)
    requires |s| > 0 && x in s[1..] && x != s[0]
    ensures x in s && FirstIndex(s, x) == 1 + FirstIndex(s[1..], x)
  {
  }

  /** The kept elements come in the order of their first appearance in `s`. */
  lemma {:induction false} DedupFromFirstAppearanceOrder<T(!new)>(s: seq<T>, seen: set<T>, i: nat, j: nat)
    requires i < j < |DedupFrom(s, seen)|
    ensures DedupFrom(s, seen)[i] in s && DedupFrom(s, seen)[j] in s
    ensures FirstIndex(s, DedupFrom(s, seen)[i]) < FirstIndex(s, DedupFrom(s, seen)[j])
    decreases |s|, 1
  {
    if s[0] in seen {
      DedupFromOrderSkip(s, seen, i, j);
    } else {
      DedupFromOrderKeep(s, seen, i, j);
    }
  }

  lemma {:induction false} DedupFromOrderSkip<T(!new)>(s: seq<T>, seen: set<T>, i: nat, j: nat)
    requires |s| > 0 && s[0] in seen
    requires i < j < |DedupFrom(s, seen)|
    ensures DedupFrom(s, seen)[i] in s && DedupFrom(s, seen)[j] in s
    ensures FirstIndex(s, DedupFrom(s, seen)[i]) < FirstIndex(s, DedupFrom(s, seen)[j])
    decreases |s|, 0
  {
    var r := DedupFrom(s[1..], seen);
    assert DedupFrom(s, seen) == r;
    DedupFromSpec(s[1..], seen);
    DedupFromFirstAppearanceOrder(s[1..], seen, i, j);
    FirstIndexTail(s, r[i]);
    FirstIndexTail(s, r[j]);
  }

  lemma {:induction false} DedupFromOrderKeep<T(!new)>(s: seq<T>, seen: set<T>, i: nat, j: nat)
    requires |s| > 0 && s[0] !in seen
    requires i < j < |DedupFrom(s, seen)|
    ensures DedupFrom(s, seen)[i] in s && DedupFrom(s, seen)[j] in s
    ensures FirstIndex(s, DedupFrom(s, seen)[i]) < FirstIndex(s, DedupFrom(s, seen)[j])
    decreases |s|, 0
  {
    var seen' := seen + {s[0]};
    var rest := DedupFrom(s[1..], seen');
    var r := DedupFrom(s, seen);
    assert r == [s[0]] + rest;
    DedupFromSpec(s[1..], seen');
    var y := rest[j - 1];
    assert r[j] == y;
    assert y in s[1..] && y !in seen';
    FirstIndexTail(s, y);
    var fy := FirstIndex(s, y);
    if i > 0 {
      var x := rest[i - 1];
      assert r[i] == x;
      assert x in s[1..] && x !in seen';
      var tail := s[1..];
      DedupFromFirstAppearanceOrder(tail, seen', i - 1, j - 1);
      var fx', fy' := FirstIndex(tail, x), FirstIndex(tail, y);
      assert fx' < fy';
      FirstIndexTail(s, x);
      assert FirstIndex(s, x) == fx' + 1 && fy == fy' + 1;
    } else {
      assert r[i] == s[0];
      assert FirstIndex(s, s[0]) == 0 < fy;
    }
  }

  lemma DedupFirstAppearanceOrder<T(!new)>(s: seq<T>, i: nat, j: nat)
    requires i < j < |Dedup(s)|
    ensures Dedup(s)[i] in s && Dedup(s)[j] in s
    ensures FirstIndex(s, Dedup(s)[i]) < FirstIndex(s, Dedup(s)[j])
  {
    DedupFromFirstAppearanceOrder(s, {}, i, j);
  }
}
