/** Small facts about sequences and sets shared by the roulette modules. */
module Seqs {

  datatype Option<T> = None | Some(value: T)

  /** The integers lo, lo+1, ..., hi-1, as Python's set(range(lo, hi)). */
  function Range(lo: int, hi: int): (r: set<int>)
    ensures forall n :: n in r <==> lo <= n < hi
    ensures lo <= hi ==> |r| == hi - lo
    decreases hi - lo
  {
    if hi <= lo then {} else Range(lo, hi - 1) + {hi - 1}
  }

  /** The list 0, 1, ..., n-1, as Python's list(range(n)). */
  function Upto(n: nat): (r: seq<int>)
    ensures |r| == n && forall i :: 0 <= i < n ==> r[i] == i
  {
    seq(n, i => i)
  }

  ghost predicate Distinct<T>(s: seq<T>) {
    forall i, j :: 0 <= i < j < |s| ==> s[i] != s[j]
  }

  lemma SubsetCard<T>(a: set<T>, b: set<T>)
    requires a <= b
    ensures |a| <= |b|
  {
    assert b == a + (b - a);
  }

  lemma {:induction false} ElemsCardBound<T>(s: seq<T>)
    ensures |set x | x in s| <= |s|
  {
    if s != [] {
      var t := s[1..];
      assert (set x | x in s) == (set x | x in t) + {s[0]};
      ElemsCardBound(t);
    }
  }

  /** A sequence with as many distinct elements as entries has no repetition. */
  lemma {:induction false} ElemsCardDistinct<T>(s: seq<T>)
    requires |set x | x in s| >= |s|
    ensures Distinct(s)
  {
    if s != [] {
      var t := s[1..];
      assert (set x | x in s) == (set x | x in t) + {s[0]};
      ElemsCardBound(t);
      ElemsCardDistinct(t);
    }
  }

  /** A list of n entries that contains every one of 0..n-1 is a permutation of them. */
  lemma CoverImpliesDistinct(s: seq<int>, n: nat)
    requires |s| == n
    requires forall k :: 0 <= k < n ==> k in s
    ensures Distinct(s)
  {
    var e := set x | x in s;
    assert Range(0, n) <= e;
    SubsetCard(Range(0, n), e);
    ElemsCardDistinct(s);
  }

  /** s[::-1] */
  function Reverse<T>(s: seq<T>): (r: seq<T>)
    ensures |r| == |s|
    ensures forall i :: 0 <= i < |s| ==> r[i] == s[|s| - 1 - i]
  {
    if s == [] then [] else [s[|s| - 1]] + Reverse(s[..|s| - 1])
  }

  /** lst[:-1] when lst is non-empty, and the empty list unchanged: a guarded pop(). */
  function DropLast<T>(s: seq<T>): (r: seq<T>)
    ensures s == [] ==> r == []
    ensures s != [] ==> r + [s[|s| - 1]] == s
  {
    if s == [] then [] else s[..|s| - 1]
  }

  /** Dropping the last entry undoes appending it. */
  lemma DropLastAppend<T>(s: seq<T>, x: T)
    ensures DropLast(s + [x]) == s
  {
    assert (s + [x])[..|s|] == s;
  }

  /** The in-order concatenation of a list of lists. */
  function Flatten<T>(ss: seq<seq<T>>): seq<T>
  {
    if ss == [] then [] else Flatten(ss[..|ss| - 1]) + ss[|ss| - 1]
  }

  lemma {:induction false} FlattenAppend<T>(a: seq<seq<T>>, b: seq<seq<T>>)
    ensures Flatten(a + b) == Flatten(a) + Flatten(b)
    decreases |b|
  {
    if b == [] {
      assert a + b == a;
    } else {
      var b', x := b[..|b| - 1], b[|b| - 1];
      assert (a + b)[..|a + b| - 1] == a + b';
      FlattenAppend(a, b');
      calc {
        Flatten(a + b);
        Flatten(a + b') + x;
        (Flatten(a) + Flatten(b')) + x;
        { assert (Flatten(a) + Flatten(b')) + x == Flatten(a) + (Flatten(b') + x); }
        Flatten(a) + Flatten(b);
      }
    }
  }

  lemma FlattenSingle<T>(s: seq<T>)
    ensures Flatten([s]) == s
  {
    assert [s][..0] == [];
  }

  /** Python's sum() of a list of naturals. */
  function Sum(s: seq<nat>): nat
  {
    if s == [] then 0 else Sum(s[..|s| - 1]) + s[|s| - 1]
  }

  lemma {:induction false} SumAtLeastLength(s: seq<nat>)
    requires forall i :: 0 <= i < |s| ==> s[i] >= 1
    ensures Sum(s) >= |s|
  {
    if s != [] {
      SumAtLeastLength(s[..|s| - 1]);
    }
  }

  /** a is a subsequence of b: a's elements occur in b in the same order (matched from the back). */
  predicate SubsequenceOf<T(==)>(a: seq<T>, b: seq<T>)
    decreases |b|
  {
    if a == [] then true
    else if b == [] then false
    else if a[|a| - 1] == b[|b| - 1] then SubsequenceOf(a[..|a| - 1], b[..|b| - 1])
    else SubsequenceOf(a, b[..|b| - 1])
  }

  /** One more element at the end of b keeps a a subsequence. */
  lemma {:induction false} SubsequenceExtend<T>(a: seq<T>, b: seq<T>, x: T)
    requires SubsequenceOf(a, b)
    ensures SubsequenceOf(a, b + [x])
    decreases |b|, 1
  {
    assert (b + [x])[..|b|] == b;
    if a != [] && a[|a| - 1] == x {
      SubsequenceDropLast(a, b);
    }
  }

  /** Dropping the last element of a keeps it a subsequence. */
  lemma {:induction false} SubsequenceDropLast<T>(a: seq<T>, b: seq<T>)
    requires a != [] && SubsequenceOf(a, b)
    ensures SubsequenceOf(a[..|a| - 1], b)
    decreases |b|, 0
  {
    var a', b', y := a[..|a| - 1], b[..|b| - 1], b[|b| - 1];
    assert b' + [y] == b;
    if a[|a| - 1] != y {
      SubsequenceDropLast(a, b');
    }
    SubsequenceExtend(a', b', y);
  }

  /** The same element at the end of both keeps the relation. */
  lemma SubsequenceSnoc<T>(a: seq<T>, b: seq<T>, x: T)
    requires SubsequenceOf(a, b)
    ensures SubsequenceOf(a + [x], b + [x])
  {
    assert (a + [x])[..|a|] == a && (b + [x])[..|b|] == b;
  }

  /** A quotient of a positive real by one no larger than it is at least 1. */
  lemma QuotientAtLeastOne(a: real, b: real)
    requires 0.0 < b <= a
    ensures a / b >= 1.0
  {
    var q := a / b;
    assert q * b == a;
    assert (q - 1.0) * b == a - b;
  }
}
