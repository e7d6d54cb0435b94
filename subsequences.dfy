/**
 * Splitting a spin sequence into runs of numbers from a predefined list, each
 * run closed by the out-of-list number that ends it, and sorting the runs into
 * successful and failed doubles and triples.
 */
module Subsequences {
  import opened Seqs

  /** The splitter's variables: the finished runs, the open run, and whether a run is open. */
  datatype Splitter = Splitter(subs: seq<seq<int>>, current: seq<int>, inSequence: bool)

  /** A finished run: starts in the list, stays in it, and ends with the one number outside it. */
  ghost predicate Closed(L: seq<int>, s: seq<int>) {
    |s| >= 2 && s[|s| - 1] !in L && forall i :: 0 <= i < |s| - 1 ==> s[i] in L
  }

  /** The open run: non-empty and all in the list. */
  ghost predicate Open(L: seq<int>, s: seq<int>) {
    s != [] && forall i :: 0 <= i < |s| ==> s[i] in L
  }

  /** The numbers a split keeps: those in the list, and each out-of-list number right after one. */
  function Kept(L: seq<int>, xs: seq<int>): (r: seq<int>)
    ensures |r| <= |xs|
  {
    if xs == [] then []
    else
      var n := |xs| - 1;
      Kept(L, xs[..n]) + (if xs[n] in L || (n >= 1 && xs[n - 1] in L) then [xs[n]] else [])
  }

  /** One number of the loop in get_subsequences. */
  function Feed(L: seq<int>, st: Splitter, num: int): Splitter
  {
    if num in L then
      if !st.inSequence then Splitter(if st.current != [] then st.subs + [st.current] else st.subs, [num], true)
      else st.(current := st.current + [num])
    else if st.inSequence then Splitter(st.subs + [st.current + [num]], [], false)
    else if st.current != [] then Splitter(st.subs + [st.current], [], false)
    else st
  }

  /** What holds of the splitter after the numbers xs (see Fed). */
  ghost predicate SplitInv(L: seq<int>, xs: seq<int>, st: Splitter) {
    (st.inSequence <==> xs != [] && xs[|xs| - 1] in L)
    && (!st.inSequence ==> st.current == [])
    && (st.inSequence ==> Open(L, st.current))
    && (forall k :: 0 <= k < |st.subs| ==> Closed(L, st.subs[k]))
    && Flatten(st.subs) + st.current == Kept(L, xs)
  }

  lemma FlattenSnoc(ss: seq<seq<int>>, s: seq<int>)
    ensures Flatten(ss + [s]) == Flatten(ss) + s
  {
    assert (ss + [s])[..|ss|] == ss;
  }

  /** The kept numbers of one more number: it is kept when it or the number before it is in the list. */
  lemma KeptSnoc(L: seq<int>, xs: seq<int>, num: int)
    ensures Kept(L, xs + [num]) ==
      Kept(L, xs) + (if num in L || (xs != [] && xs[|xs| - 1] in L) then [num] else [])
  {
    var ys := xs + [num];
    assert ys[..|xs|] == xs;
  }

  lemma FeedKeepsSplitInv(L: seq<int>, xs: seq<int>, st: Splitter, num: int)
    requires SplitInv(L, xs, st)
    ensures SplitInv(L, xs + [num], Feed(L, st, num))
  {
    var ys := xs + [num];
    var r := Feed(L, st, num);
    KeptSnoc(L, xs, num);
    assert ys != [] && ys[|ys| - 1] == num;
    var f := Flatten(st.subs);
    if num in L {
      if st.inSequence {
        assert r == st.(current := st.current + [num]);
        assert f + (st.current + [num]) == (f + st.current) + [num];
      } else {
        assert r == Splitter(st.subs, [num], true);
        assert f + [] == f;
      }
    } else if st.inSequence {
      var c := st.current + [num];
      assert r == Splitter(st.subs + [c], [], false);
      FlattenSnoc(st.subs, c);
      assert Flatten(r.subs) + [] == f + c;
      assert f + c == (f + st.current) + [num];
      assert Closed(L, c);
    } else {
      assert r == st;
    }
  }

  /** The splitter after the given numbers. */
  function Fed(L: seq<int>, xs: seq<int>): Splitter
  {
    if xs == [] then Splitter([], [], false)
    else Feed(L, Fed(L, xs[..|xs| - 1]), xs[|xs| - 1])
  }

  /**
   * A run is open exactly when the last number is in the list, the open run is
   * empty otherwise, every finished run is closed by one out-of-list number, and
   * the finished runs followed by the open one are the kept numbers.
   */
  lemma {:induction false} FedInvariant(L: seq<int>, xs: seq<int>)
    ensures Fed(L, xs).inSequence <==> xs != [] && xs[|xs| - 1] in L
    ensures !Fed(L, xs).inSequence ==> Fed(L, xs).current == []
    ensures Fed(L, xs).inSequence ==> Open(L, Fed(L, xs).current)
    ensures forall k :: 0 <= k < |Fed(L, xs).subs| ==> Closed(L, Fed(L, xs).subs[k])
    ensures Flatten(Fed(L, xs).subs) + Fed(L, xs).current == Kept(L, xs)
  {
    if xs != [] {
      var p := xs[..|xs| - 1];
      assert xs == p + [xs[|xs| - 1]];
      FedInvariant(L, p);
      FeedKeepsSplitInv(L, p, Fed(L, p), xs[|xs| - 1]);
    }
  }

  /**
   * get_subsequences: every run is non-empty, starts in the list and stays in it
   * up to its last number; every run but the final one ends with a number outside
   * the list; together they are the kept numbers, in order.
   */
  function Subsequences(L: seq<int>, xs: seq<int>): (r: seq<seq<int>>)
    ensures forall k :: 0 <= k < |r| ==> r[k] != [] && r[k][0] in L
    ensures forall k, i :: 0 <= k < |r| && 0 <= i < |r[k]| - 1 ==> r[k][i] in L
    ensures forall k :: 0 <= k < |r| - 1 ==> r[k][|r[k]| - 1] !in L
    ensures Flatten(r) == Kept(L, xs)
  {
    var st := Fed(L, xs);
    FedInvariant(L, xs);
    if st.current != [] then
      FlattenSnoc(st.subs, st.current);
      st.subs + [st.current]
    else st.subs
  }

  method GetSubsequences(L: seq<int>, numbers: seq<int>) returns (subsequences: seq<seq<int>>)
    ensures subsequences == Subsequences(L, numbers)
  {
    subsequences := [];
    var inSequence := false;
    var current: seq<int> := [];
    for i := 0 to |numbers|
      invariant Splitter(subsequences, current, inSequence) == Fed(L, numbers[..i])
    {
      var num := numbers[i];
      if num in L {
        if !inSequence {
          if current != [] {
            subsequences := subsequences + [current];
          }
          current := [];
          inSequence := true;
        }
        current := current + [num];
      } else {
        if inSequence {
          current := current + [num];
          subsequences := subsequences + [current];
          current := [];
          inSequence := false;
        } else {
          if current != [] {
            subsequences := subsequences + [current];
            current := [];
          }
        }
      }
      assert numbers[..i + 1][..i] == numbers[..i];
    }
    assert numbers[..|numbers|] == numbers;
    if current != [] {
      subsequences := subsequences + [current];
    }
  }

  /** The numbers of xs that are in the list, in order. */
  function InList(L: seq<int>, xs: seq<int>): seq<int>
  {
    if xs == [] then []
    else InList(L, xs[..|xs| - 1]) + (if xs[|xs| - 1] in L then [xs[|xs| - 1]] else [])
  }

  lemma {:induction false} InListAppend(L: seq<int>, a: seq<int>, b: seq<int>)
    ensures InList(L, a + b) == InList(L, a) + InList(L, b)
    decreases |b|
  {
    if b == [] {
      assert a + b == a;
    } else {
      var b', x := b[..|b| - 1], b[|b| - 1];
      var last := if x in L then [x] else [];
      assert (a + b)[..|a + b| - 1] == a + b';
      InListAppend(L, a, b');
      calc {
        InList(L, a + b);
        InList(L, a + b') + last;
        (InList(L, a) + InList(L, b')) + last;
        { assert (InList(L, a) + InList(L, b')) + last == InList(L, a) + (InList(L, b') + last); }
        InList(L, a) + InList(L, b);
      }
    }
  }

  lemma InListUnit(L: seq<int>, x: int)
    ensures InList(L, [x]) == if x in L then [x] else []
  {
    assert [x][..0] == [];
  }

  /** The runs hold every in-list number of the input exactly once, in input order. */
  lemma {:induction false} KeptInList(L: seq<int>, xs: seq<int>)
    ensures InList(L, Flatten(Subsequences(L, xs))) == InList(L, xs)
  {
    KeptHoldsInList(L, xs);
  }

  /** Keeping a number that is in the list, or dropping one that is not, extends the in-list part alike. */
  lemma InListKeepStep(L: seq<int>, k: seq<int>, x: int, keep: bool)
    requires keep || x !in L
    ensures InList(L, k + (if keep then [x] else [])) == InList(L, k) + (if x in L then [x] else [])
  {
    if keep {
      InListAppend(L, k, [x]);
      InListUnit(L, x);
    } else {
      assert k + [] == k;
    }
  }

  lemma {:induction false} KeptHoldsInList(L: seq<int>, xs: seq<int>)
    ensures InList(L, Kept(L, xs)) == InList(L, xs)
  {
    if xs != [] {
      var n := |xs| - 1;
      var p, x := xs[..n], xs[n];
      var keep := x in L || (n >= 1 && xs[n - 1] in L);
      KeptHoldsInList(L, p);
      assert Kept(L, xs) == Kept(L, p) + (if keep then [x] else []);
      assert InList(L, xs) == InList(L, p) + (if x in L then [x] else []);
      InListKeepStep(L, Kept(L, p), x, keep);
    }
  }

  lemma FedSnoc(L: seq<int>, xs: seq<int>, x: int, ys: seq<int>)
    requires ys == xs + [x]
    ensures Fed(L, ys) == Feed(L, Fed(L, xs), x)
  {
    assert ys[..|xs|] == xs;
  }

  /** The worked example up to the end of its first run. */
  lemma ExampleRun1()
    ensures Fed([1, 4, 5, 7, 9], [10, 1, 7, 11]) == Splitter([[1, 7, 11]], [], false)
  {
    var L := [1, 4, 5, 7, 9];
    FedSnoc(L, [], 10, [10]);
    assert Fed(L, [10]) == Splitter([], [], false);
    FedSnoc(L, [10], 1, [10, 1]);
    assert Fed(L, [10, 1]) == Splitter([], [1], true);
    FedSnoc(L, [10, 1], 7, [10, 1, 7]);
    assert [1] + [7] == [1, 7];
    assert Fed(L, [10, 1, 7]) == Splitter([], [1, 7], true);
    FedSnoc(L, [10, 1, 7], 11, [10, 1, 7, 11]);
    assert [1, 7] + [11] == [1, 7, 11];
    assert [] + [[1, 7, 11]] == [[1, 7, 11]];
  }

  /** The worked example two numbers into its second run. */
  lemma ExampleRun2Start()
    ensures Fed([1, 4, 5, 7, 9], [10, 1, 7, 11, 5, 1]) == Splitter([[1, 7, 11]], [5, 1], true)
  {
    var L := [1, 4, 5, 7, 9];
    ExampleRun1();
    FedSnoc(L, [10, 1, 7, 11], 5, [10, 1, 7, 11, 5]);
    assert Fed(L, [10, 1, 7, 11, 5]) == Splitter([[1, 7, 11]], [5], true);
    FedSnoc(L, [10, 1, 7, 11, 5], 1, [10, 1, 7, 11, 5, 1]);
    assert [5] + [1] == [5, 1];
  }

  /** The worked example up to the end of its second run. */
  lemma ExampleRun2()
    ensures Fed([1, 4, 5, 7, 9], [10, 1, 7, 11, 5, 1, 4, 6]) == Splitter([[1, 7, 11], [5, 1, 4, 6]], [], false)
  {
    var L := [1, 4, 5, 7, 9];
    ExampleRun2Start();
    FedSnoc(L, [10, 1, 7, 11, 5, 1], 4, [10, 1, 7, 11, 5, 1, 4]);
    assert [5, 1] + [4] == [5, 1, 4];
    assert Fed(L, [10, 1, 7, 11, 5, 1, 4]) == Splitter([[1, 7, 11]], [5, 1, 4], true);
    FedSnoc(L, [10, 1, 7, 11, 5, 1, 4], 6, [10, 1, 7, 11, 5, 1, 4, 6]);
    assert [5, 1, 4] + [6] == [5, 1, 4, 6];
    assert [[1, 7, 11]] + [[5, 1, 4, 6]] == [[1, 7, 11], [5, 1, 4, 6]];
  }

  /** The worked example up to the end of its third run. */
  lemma ExampleRun3()
    ensures Fed([1, 4, 5, 7, 9], [10, 1, 7, 11, 5, 1, 4, 6, 4, 32]) ==
      Splitter([[1, 7, 11], [5, 1, 4, 6], [4, 32]], [], false)
  {
    var L := [1, 4, 5, 7, 9];
    ExampleRun2();
    FedSnoc(L, [10, 1, 7, 11, 5, 1, 4, 6], 4, [10, 1, 7, 11, 5, 1, 4, 6, 4]);
    assert Fed(L, [10, 1, 7, 11, 5, 1, 4, 6, 4]) == Splitter([[1, 7, 11], [5, 1, 4, 6]], [4], true);
    FedSnoc(L, [10, 1, 7, 11, 5, 1, 4, 6, 4], 32, [10, 1, 7, 11, 5, 1, 4, 6, 4, 32]);
    assert [4] + [32] == [4, 32];
    assert [[1, 7, 11], [5, 1, 4, 6]] + [[4, 32]] == [[1, 7, 11], [5, 1, 4, 6], [4, 32]];
  }

  /** The whole worked example: the history ends on an open run. */
  lemma ExampleRun4()
    ensures Fed([1, 4, 5, 7, 9], [10, 1, 7, 11, 5, 1, 4, 6, 4, 32, 5, 9, 12]) ==
      Splitter([[1, 7, 11], [5, 1, 4, 6], [4, 32], [5, 9, 12]], [], false)
  {
    var L := [1, 4, 5, 7, 9];
    ExampleRun3();
    FedSnoc(L, [10, 1, 7, 11, 5, 1, 4, 6, 4, 32], 5, [10, 1, 7, 11, 5, 1, 4, 6, 4, 32, 5]);
    assert Fed(L, [10, 1, 7, 11, 5, 1, 4, 6, 4, 32, 5]) == Splitter([[1, 7, 11], [5, 1, 4, 6], [4, 32]], [5], true);
    FedSnoc(L, [10, 1, 7, 11, 5, 1, 4, 6, 4, 32, 5], 9, [10, 1, 7, 11, 5, 1, 4, 6, 4, 32, 5, 9]);
    assert [5] + [9] == [5, 9];
    assert Fed(L, [10, 1, 7, 11, 5, 1, 4, 6, 4, 32, 5, 9]) == Splitter([[1, 7, 11], [5, 1, 4, 6], [4, 32]], [5, 9], true);
    FedSnoc(L, [10, 1, 7, 11, 5, 1, 4, 6, 4, 32, 5, 9], 12, [10, 1, 7, 11, 5, 1, 4, 6, 4, 32, 5, 9, 12]);
    assert [5, 9] + [12] == [5, 9, 12];
    assert [[1, 7, 11], [5, 1, 4, 6], [4, 32]] + [[5, 9, 12]] == [[1, 7, 11], [5, 1, 4, 6], [4, 32], [5, 9, 12]];
  }

  /** The worked example: list [1, 4, 5, 7, 9] on the history 10, 1, 7, 11, 5, 1, 4, 6, 4, 32, 5, 9, 12. */
  lemma Example()
    ensures Subsequences([1, 4, 5, 7, 9], [10, 1, 7, 11, 5, 1, 4, 6, 4, 32, 5, 9, 12]) ==
      [[1, 7, 11], [5, 1, 4, 6], [4, 32], [5, 9, 12]]
  {
    ExampleRun4();
  }

  /** Runs of length at least 2 whose first two numbers are both in the list (hit) or not (miss). */
  function Doubles(L: seq<int>, subs: seq<seq<int>>, hit: bool): seq<seq<int>>
  {
    if subs == [] then []
    else
      var s := subs[|subs| - 1];
      Doubles(L, subs[..|subs| - 1], hit) + (if |s| >= 2 && (s[0] in L && s[1] in L) == hit then [s] else [])
  }

  /** Runs of length at least 3 whose first three numbers are all in the list (hit) or not (miss). */
  function Triples(L: seq<int>, subs: seq<seq<int>>, hit: bool): seq<seq<int>>
  {
    if subs == [] then []
    else
      var s := subs[|subs| - 1];
      Triples(L, subs[..|subs| - 1], hit)
      + (if |s| >= 3 && (s[0] in L && s[1] in L && s[2] in L) == hit then [s] else [])
  }

  /** categorize_subsequences */
  method CategorizeSubsequences(subs: seq<seq<int>>, L: seq<int>)
    returns (successfulDoubles: seq<seq<int>>, failedDoubles: seq<seq<int>>,
             successfulTriples: seq<seq<int>>, failedTriples: seq<seq<int>>)
    ensures successfulDoubles == Doubles(L, subs, true) && failedDoubles == Doubles(L, subs, false)
    ensures successfulTriples == Triples(L, subs, true) && failedTriples == Triples(L, subs, false)
  {
    successfulDoubles, failedDoubles, successfulTriples, failedTriples := [], [], [], [];
    for k := 0 to |subs|
      invariant successfulDoubles == Doubles(L, subs[..k], true) && failedDoubles == Doubles(L, subs[..k], false)
      invariant successfulTriples == Triples(L, subs[..k], true) && failedTriples == Triples(L, subs[..k], false)
    {
      var s := subs[k];
      if |s| >= 2 {
        if s[0] in L && s[1] in L {
          successfulDoubles := successfulDoubles + [s];
        } else {
          failedDoubles := failedDoubles + [s];
        }
      }
      if |s| >= 3 {
        if s[0] in L && s[1] in L && s[2] in L {
          successfulTriples := successfulTriples + [s];
        } else {
          failedTriples := failedTriples + [s];
        }
      }
      assert subs[..k + 1][..k] == subs[..k];
    }
    assert subs[..|subs|] == subs;
  }

  /** How many runs have at least n numbers. */
  function CountLong(subs: seq<seq<int>>, n: nat): (c: nat)
    ensures c <= |subs|
  {
    if subs == [] then 0 else CountLong(subs[..|subs| - 1], n) + (if |subs[|subs| - 1]| >= n then 1 else 0)
  }

  /** Every run of length at least 2 is one double, successful or failed; likewise for triples. */
  lemma {:induction false} EachRunClassifiedOnce(L: seq<int>, subs: seq<seq<int>>)
    ensures |Doubles(L, subs, true)| + |Doubles(L, subs, false)| == CountLong(subs, 2)
    ensures |Triples(L, subs, true)| + |Triples(L, subs, false)| == CountLong(subs, 3)
  {
    if subs != [] {
      EachRunClassifiedOnce(L, subs[..|subs| - 1]);
    }
  }

  /** The successful triples are exactly the successful doubles that are also successful triples, in order. */
  lemma {:induction false} TriplesAmongDoubles(L: seq<int>, subs: seq<seq<int>>)
    ensures Triples(L, subs, true) == Triples(L, Doubles(L, subs, true), true)
  {
    if subs != [] {
      var p := subs[..|subs| - 1];
      var s := subs[|subs| - 1];
      TriplesAmongDoubles(L, p);
      var d := Doubles(L, p, true);
      if |s| >= 2 && s[0] in L && s[1] in L {
        assert Doubles(L, subs, true) == d + [s];
        assert (d + [s])[..|d|] == d;
      } else {
        assert Doubles(L, subs, true) == d;
        assert Triples(L, subs, true) == Triples(L, p, true);
      }
    }
  }

  /** A double is one of the runs, of length at least 2, whose first two numbers hit exactly when asked. */
  lemma {:induction false} DoublesMembers(L: seq<int>, subs: seq<seq<int>>, hit: bool)
    ensures forall s :: s in Doubles(L, subs, hit) ==> s in subs && |s| >= 2 && (s[0] in L && s[1] in L) == hit
  {
    if subs != [] {
      DoublesMembers(L, subs[..|subs| - 1], hit);
    }
  }

  /** A triple is one of the runs, of length at least 3, whose first three numbers hit exactly when asked. */
  lemma {:induction false} TriplesMembers(L: seq<int>, subs: seq<seq<int>>, hit: bool)
    ensures forall s :: s in Triples(L, subs, hit) ==>
      s in subs && |s| >= 3 && (s[0] in L && s[1] in L && s[2] in L) == hit
  {
    if subs != [] {
      TriplesMembers(L, subs[..|subs| - 1], hit);
    }
  }

  /**
   * On the runs get_subsequences produces, a failed double is a run of two that
   * ends outside the list, and a failed triple a run of three.
   */
  lemma FailuresOfSplit(L: seq<int>, xs: seq<int>)
    ensures forall s :: s in Doubles(L, Subsequences(L, xs), false) ==> |s| == 2 && s[0] in L && s[1] !in L
    ensures forall s :: s in Triples(L, Subsequences(L, xs), false) ==>
      |s| == 3 && s[0] in L && s[1] in L && s[2] !in L
  {
    var r := Subsequences(L, xs);
    DoublesMembers(L, r, false);
    TriplesMembers(L, r, false);
    forall s | s in Doubles(L, r, false)
      ensures |s| == 2 && s[0] in L && s[1] !in L
    {
      var k :| 0 <= k < |r| && r[k] == s;
      FailedRun(L, s);
    }
    forall s | s in Triples(L, r, false)
      ensures |s| == 3 && s[0] in L && s[1] in L && s[2] !in L
    {
      var k :| 0 <= k < |r| && r[k] == s;
      FailedRun(L, s);
    }
  }

  /** A run whose numbers before the last are all in the list fails as a double or a triple only at its end. */
  lemma FailedRun(L: seq<int>, s: seq<int>)
    requires |s| >= 2 && forall i :: 0 <= i < |s| - 1 ==> s[i] in L
    ensures !(s[0] in L && s[1] in L) ==> |s| == 2 && s[0] in L && s[1] !in L
    ensures |s| >= 3 && !(s[0] in L && s[1] in L && s[2] in L) ==> |s| == 3 && s[0] in L && s[1] in L && s[2] !in L
  {
    assert s[0] in L;
    if |s| >= 3 {
      assert s[1] in L;
    }
    if |s| >= 4 {
      assert s[2] in L;
    }
  }

  /** The doubles keep the order of the runs. */
  lemma {:induction false} DoublesInOrder(L: seq<int>, subs: seq<seq<int>>, hit: bool)
    ensures SubsequenceOf(Doubles(L, subs, hit), subs)
  {
    if subs != [] {
      var front, s := subs[..|subs| - 1], subs[|subs| - 1];
      var prev := Doubles(L, front, hit);
      DoublesInOrder(L, front, hit);
      assert front + [s] == subs;
      if |s| >= 2 && (s[0] in L && s[1] in L) == hit {
        assert Doubles(L, subs, hit) == prev + [s];
        SubsequenceSnoc(prev, front, s);
      } else {
        assert Doubles(L, subs, hit) == prev;
        SubsequenceExtend(prev, front, s);
      }
    }
  }

  /** The triples keep the order of the runs. */
  lemma {:induction false} TriplesInOrder(L: seq<int>, subs: seq<seq<int>>, hit: bool)
    ensures SubsequenceOf(Triples(L, subs, hit), subs)
  {
    if subs != [] {
      var front, s := subs[..|subs| - 1], subs[|subs| - 1];
      var prev := Triples(L, front, hit);
      TriplesInOrder(L, front, hit);
      assert front + [s] == subs;
      if |s| >= 3 && (s[0] in L && s[1] in L && s[2] in L) == hit {
        assert Triples(L, subs, hit) == prev + [s];
        SubsequenceSnoc(prev, front, s);
      } else {
        assert Triples(L, subs, hit) == prev;
        SubsequenceExtend(prev, front, s);
      }
    }
  }
}
