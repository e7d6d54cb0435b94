/**
 * The Streamlit number tracker: each of the 37 buttons stores its number,
 * then reports how often that number was stored and how many stored entries
 * belong to the predefined list (the Voisins du Zero sector).
 */
module StreamlitApp {
  import opened Seqs
  import opened Roulette

  /** The number of entries equal to num (Series.isin([num]).count()). */
  function Occurrences(xs: seq<int>, num: int): (c: nat)
    ensures c == multiset(xs)[num]
  {
    if xs == [] then 0
    else
      assert xs == xs[..|xs| - 1] + [xs[|xs| - 1]];
      Occurrences(xs[..|xs| - 1], num) + (if xs[|xs| - 1] == num then 1 else 0)
  }

  /** The number of entries that appear in list (the rows of df[df['Number'].isin(list)]). */
  function Matches(xs: seq<int>, list: seq<int>): (m: nat)
    ensures m <= |xs|
    ensures m == 0 <==> forall i :: 0 <= i < |xs| ==> xs[i] !in list
    ensures m == |xs| <==> forall i :: 0 <= i < |xs| ==> xs[i] in list
  {
    if xs == [] then 0
    else Matches(xs[..|xs| - 1], list) + (if xs[|xs| - 1] in list then 1 else 0)
  }

  lemma MatchesSnoc(xs: seq<int>, list: seq<int>, num: int)
    ensures Matches(xs + [num], list) == Matches(xs, list) + (if num in list then 1 else 0)
  {
    assert (xs + [num])[..|xs|] == xs;
  }

  lemma OccurrencesSnoc(xs: seq<int>, num: int, other: int)
    ensures Occurrences(xs + [num], other) == Occurrences(xs, other) + (if num == other then 1 else 0)
  {
    assert (xs + [num])[..|xs|] == xs;
  }

  /** The predefined list of the tracker: the Voisins du Zero numbers in wheel order. */
  const PredefinedList: seq<int> := VoisinsList

  /** The stored entries: the Number column of the CSV file. */
  class NumberStore {
    var numbers: seq<int>

    /** A freshly initialised file holds no numbers. */
    constructor ()
      ensures numbers == []
    {
      numbers := [];
    }

    /** save_number: appends one entry at the end, the earlier entries unchanged. */
    method SaveNumber(num: int)
      modifies this
      ensures numbers == old(numbers) + [num]
    {
      numbers := numbers + [num];
    }

    /** analyze_number: how many stored entries equal num. */
    function AnalyzeNumber(num: int): (c: nat)
      reads this
      ensures c == multiset(numbers)[num]
    {
      Occurrences(numbers, num)
    }

    /** total_matches: the entries in the predefined list, and all entries. */
    function TotalMatches(): (r: (nat, nat))
      reads this
      ensures r.1 == |numbers| && r.0 <= r.1
      ensures r.0 == Matches(numbers, PredefinedList)
    {
      (Matches(numbers, PredefinedList), |numbers|)
    }
  }

  /**
   * A button press: save the number, then report its count and the match totals.
   * The count is at least 1, the total has grown by one, and the matches grew
   * by one exactly when the number is in the list.
   */
  method PressButton(store: NumberStore, i: int) returns (count: nat, matches: nat, total: nat)
    modifies store
    ensures store.numbers == old(store.numbers) + [i]
    ensures count == Occurrences(old(store.numbers), i) + 1
    ensures total == |old(store.numbers)| + 1
    ensures matches == Matches(old(store.numbers), PredefinedList) + (if i in PredefinedList then 1 else 0)
  {
    store.SaveNumber(i);
    count := store.AnalyzeNumber(i);
    var r := store.TotalMatches();
    matches, total := r.0, r.1;
    OccurrencesSnoc(old(store.numbers), i, i);
    MatchesSnoc(old(store.numbers), PredefinedList, i);
  }

  /** The two button columns: range(19) and range(19, 37). */
  method ButtonColumns() returns (col1: seq<int>, col2: seq<int>)
    ensures col1 + col2 == Upto(37)
    ensures |col1| == 19
  {
    col1 := [];
    for i := 0 to 19
      invariant |col1| == i && forall k :: 0 <= k < i ==> col1[k] == k
    {
      col1 := col1 + [i];
    }
    col2 := [];
    for i := 19 to 37
      invariant |col2| == i - 19 && forall k :: 0 <= k < i - 19 ==> col2[k] == 19 + k
    {
      col2 := col2 + [i];
    }
    assert col1 + col2 == Upto(37) by {
      forall k | 0 <= k < 37
        ensures (col1 + col2)[k] == k
      {
        if k >= 19 {
          assert (col1 + col2)[k] == col2[k - 19];
        }
      }
    }
  }
}
