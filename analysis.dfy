/**
 * The sequence analysis: every number of a spin history is given to the first
 * list that contains it, maximal runs of one owner are measured per list, and
 * per-list statistics are derived. Next to it, a plain membership count per
 * list, and the construction of the combined list that joins a selection of
 * the predefined lists.
 */
module Analysis {
  import opened Seqs
  import opened Text
  import opened Roulette

  /** The index of the first list that contains x: lists are tried in order and the first match wins. */
  function Owner(x: int, lists: seq<NamedList>): (o: Option<nat>)
    ensures o.None? <==> forall k :: 0 <= k < |lists| ==> x !in lists[k].numbers
    ensures o.Some? ==> o.value < |lists| && x in lists[o.value].numbers
    ensures o.Some? ==> forall k :: 0 <= k < o.value ==> x !in lists[k].numbers
  {
    if lists == [] then None
    else
      var o := Owner(x, lists[..|lists| - 1]);
      if o.Some? then o
      else if x in lists[|lists| - 1].numbers then Some(|lists| - 1)
      else None
  }

  /** The scanner's variables: the owner of the open run, its length, and the closed runs per list. */
  datatype Scan = Scan(current: Option<nat>, count: nat, runs: seq<seq<nat>>)

  /** A run is open exactly when its count is positive, and every closed run has length at least 1. */
  ghost predicate ScanInv(s: Scan, n: nat) {
    |s.runs| == n
    && (s.current.Some? <==> s.count > 0)
    && (s.current.Some? ==> s.current.value < n)
    && forall k, i :: 0 <= k < n && 0 <= i < |s.runs[k]| ==> s.runs[k][i] >= 1
  }

  /** sequences[k].append(c) */
  function Record(runs: seq<seq<nat>>, k: nat, c: nat): seq<seq<nat>>
    requires k < |runs|
  {
    runs[k := runs[k] + [c]]
  }

  /** One number of the scan: extend the open run, or close it and open another, or close it for good. */
  function ScanStep(s: Scan, x: int, lists: seq<NamedList>): (r: Scan)
    requires ScanInv(s, |lists|)
    ensures ScanInv(r, |lists|)
  {
    var o := Owner(x, lists);
    if o.Some? then
      if s.current == o then s.(count := s.count + 1)
      else Scan(o, 1, if s.current.Some? then Record(s.runs, s.current.value, s.count) else s.runs)
    else if s.current.Some? then Scan(None, 0, Record(s.runs, s.current.value, s.count))
    else s
  }

  /** {name: [] for name in lists.keys()} */
  function NoRuns(n: nat): (r: seq<seq<nat>>)
    ensures |r| == n && forall k :: 0 <= k < n ==> r[k] == []
  {
    seq(n, _ => [])
  }

  /** The scan state after the given numbers. */
  function Scanned(numbers: seq<int>, lists: seq<NamedList>): (s: Scan)
    ensures ScanInv(s, |lists|)
  {
    if numbers == [] then Scan(None, 0, NoRuns(|lists|))
    else ScanStep(Scanned(numbers[..|numbers| - 1], lists), numbers[|numbers| - 1], lists)
  }

  /** The runs per list, the one still open at the end included. */
  function Streaks(numbers: seq<int>, lists: seq<NamedList>): (runs: seq<seq<nat>>)
    ensures |runs| == |lists|
    ensures forall k, i :: 0 <= k < |runs| && 0 <= i < |runs[k]| ==> runs[k][i] >= 1
  {
    var s := Scanned(numbers, lists);
    if s.count > 0 then Record(s.runs, s.current.value, s.count) else s.runs
  }

  /** The statistics reported for one list. */
  datatype Stats = Stats(sequences: seq<nat>, totalSeriesAfterFirst: nat, averageSeriesLength: real)

  /** Series after the first, and the mean run length (0 when there is no run). */
  function SeriesStats(runs: seq<nat>): (st: Stats)
    ensures st.sequences == runs
    ensures runs == [] ==> st.totalSeriesAfterFirst == 0 && st.averageSeriesLength == 0.0
    ensures runs != [] ==> st.totalSeriesAfterFirst + 1 == |runs|
    ensures runs != [] ==> st.averageSeriesLength * (|runs| as real) == Sum(runs) as real
  {
    if runs == [] then Stats(runs, 0, 0.0)
    else Stats(runs, if |runs| > 1 then |runs| - 1 else 0, Sum(runs) as real / |runs| as real)
  }

  /** The scan of one more number is one more step. */
  lemma ScannedSnoc(numbers: seq<int>, i: nat, lists: seq<NamedList>)
    requires i < |numbers|
    ensures Scanned(numbers[..i + 1], lists) == ScanStep(Scanned(numbers[..i], lists), numbers[i], lists)
  {
    assert numbers[..i + 1][..i] == numbers[..i];
  }

  /** A number whose first list is j extends the run of j, or closes the open run and opens one for j. */
  lemma StepHit(s: Scan, x: int, lists: seq<NamedList>, j: nat)
    requires ScanInv(s, |lists|)
    requires j < |lists| && x in lists[j].numbers
    requires forall k :: 0 <= k < j ==> x !in lists[k].numbers
    ensures s.current == Some(j) ==> ScanStep(s, x, lists) == s.(count := s.count + 1)
    ensures s.current != Some(j) ==>
      ScanStep(s, x, lists) == Scan(Some(j), 1, if s.current.Some? then Record(s.runs, s.current.value, s.count) else s.runs)
  {
    var o := Owner(x, lists);
    assert o.Some? && o.value == j;
  }

  /** A number no list contains closes the open run, if there is one. */
  lemma StepMiss(s: Scan, x: int, lists: seq<NamedList>)
    requires ScanInv(s, |lists|)
    requires forall k :: 0 <= k < |lists| ==> x !in lists[k].numbers
    ensures s.current.Some? ==> ScanStep(s, x, lists) == Scan(None, 0, Record(s.runs, s.current.value, s.count))
    ensures s.current.None? ==> ScanStep(s, x, lists) == s
  {
  }

  /** analyze_continuous_sequences, on a spin history already loaded. */
  method AnalyzeContinuousSequences(numbers: seq<int>, lists: seq<NamedList>) returns (stats: seq<Stats>)
    ensures |stats| == |lists|
    ensures forall k :: 0 <= k < |lists| ==> stats[k] == SeriesStats(Streaks(numbers, lists)[k])
  {
    var current: Option<nat> := None;
    var count: nat := 0;
    var sequences := NoRuns(|lists|);
    for i := 0 to |numbers|
      invariant Scan(current, count, sequences) == Scanned(numbers[..i], lists)
    {
      ghost var before := Scan(current, count, sequences);
      var number := numbers[i];
      var found := false;
      var j := 0;
      while j < |lists|
        invariant 0 <= j <= |lists|
        invariant forall k :: 0 <= k < j ==> number !in lists[k].numbers
        invariant Scan(current, count, sequences) == before && !found
      {
        if number in lists[j].numbers {
          StepHit(before, number, lists, j);
          if current == Some(j) {
            count := count + 1;
          } else {
            if current.Some? {
              sequences := sequences[current.value := sequences[current.value] + [count]];
            }
            current := Some(j);
            count := 1;
          }
          found := true;
          break;
        }
        j := j + 1;
      }
      if !found {
        StepMiss(before, number, lists);
        if current.Some? {
          sequences := sequences[current.value := sequences[current.value] + [count]];
          current := None;
          count := 0;
        }
      }
      ScannedSnoc(numbers, i, lists);
    }
    assert numbers[..|numbers|] == numbers;
    if count > 0 {
      sequences := sequences[current.value := sequences[current.value] + [count]];
    }
    stats := [];
    for k := 0 to |lists|
      invariant |stats| == k
      invariant forall m :: 0 <= m < k ==> stats[m] == SeriesStats(sequences[m])
    {
      stats := stats + [SeriesStats(sequences[k])];
    }
  }

  /** How many of the numbers some list contains. */
  function Resolved(numbers: seq<int>, lists: seq<NamedList>): (c: nat)
    ensures c <= |numbers|
  {
    if numbers == [] then 0
    else Resolved(numbers[..|numbers| - 1], lists) + (if Owner(numbers[|numbers| - 1], lists).Some? then 1 else 0)
  }

  /** The sum of all run lengths of all lists. */
  function TotalOf(runs: seq<seq<nat>>): nat
  {
    if runs == [] then 0 else TotalOf(runs[..|runs| - 1]) + Sum(runs[|runs| - 1])
  }

  lemma {:induction false} NoRunsTotal(n: nat)
    ensures TotalOf(NoRuns(n)) == 0
  {
    if n > 0 {
      assert NoRuns(n)[..n - 1] == NoRuns(n - 1);
      NoRunsTotal(n - 1);
    }
  }

  lemma {:induction false} RecordTotal(runs: seq<seq<nat>>, k: nat, c: nat)
    requires k < |runs|
    ensures TotalOf(Record(runs, k, c)) == TotalOf(runs) + c
  {
    var r := Record(runs, k, c);
    var n := |runs|;
    assert (runs[k] + [c])[..|runs[k]|] == runs[k];
    if k == n - 1 {
      assert r[..n - 1] == runs[..n - 1];
    } else {
      assert r[..n - 1] == Record(runs[..n - 1], k, c);
      RecordTotal(runs[..n - 1], k, c);
    }
  }

  lemma {:induction false} ScannedTotal(numbers: seq<int>, lists: seq<NamedList>)
    ensures TotalOf(Scanned(numbers, lists).runs) + Scanned(numbers, lists).count == Resolved(numbers, lists)
  {
    if numbers == [] {
      NoRunsTotal(|lists|);
    } else {
      var p := numbers[..|numbers| - 1];
      ScannedTotal(p, lists);
      var s := Scanned(p, lists);
      if s.current.Some? {
        RecordTotal(s.runs, s.current.value, s.count);
      }
    }
  }

  /** The run lengths of all lists add up to the number of numbers some list contains. */
  lemma StreaksTotal(numbers: seq<int>, lists: seq<NamedList>)
    ensures TotalOf(Streaks(numbers, lists)) == Resolved(numbers, lists)
  {
    ScannedTotal(numbers, lists);
    var s := Scanned(numbers, lists);
    if s.count > 0 {
      RecordTotal(s.runs, s.current.value, s.count);
    }
  }

  /** Runs are never empty, so the mean run length of a list with runs is at least 1. */
  lemma AverageAtLeastOne(numbers: seq<int>, lists: seq<NamedList>, k: nat)
    requires k < |lists| && Streaks(numbers, lists)[k] != []
    ensures SeriesStats(Streaks(numbers, lists)[k]).averageSeriesLength >= 1.0
  {
    var runs := Streaks(numbers, lists)[k];
    SumAtLeastLength(runs);
    QuotientAtLeastOne(Sum(runs) as real, |runs| as real);
  }

  /** How many entries of numbers are in members, repeats included. */
  function CountIn(numbers: seq<int>, members: seq<int>): (c: nat)
    ensures c <= |numbers|
  {
    if numbers == [] then 0
    else CountIn(numbers[..|numbers| - 1], members) + (if numbers[|numbers| - 1] in members then 1 else 0)
  }

  /** count_numbers_by_list: a number is counted once in every list that contains it. */
  method CountNumbersByList(numbers: seq<int>, lists: seq<NamedList>) returns (counts: seq<nat>)
    ensures |counts| == |lists|
    ensures forall k :: 0 <= k < |lists| ==> counts[k] == CountIn(numbers, lists[k].numbers)
  {
    counts := seq(|lists|, _ => 0);
    for i := 0 to |numbers|
      invariant |counts| == |lists|
      invariant forall k :: 0 <= k < |lists| ==> counts[k] == CountIn(numbers[..i], lists[k].numbers)
    {
      var num := numbers[i];
      assert numbers[..i + 1][..i] == numbers[..i];
      for k := 0 to |lists|
        invariant |counts| == |lists|
        invariant forall m :: 0 <= m < k ==> counts[m] == CountIn(numbers[..i + 1], lists[m].numbers)
        invariant forall m :: k <= m < |lists| ==> counts[m] == CountIn(numbers[..i], lists[m].numbers)
      {
        if num in lists[k].numbers {
          counts := counts[k := counts[k] + 1];
        }
      }
    }
    assert numbers[..|numbers|] == numbers;
  }

  /** How many of the numbers list k owns. */
  function OwnedBy(numbers: seq<int>, lists: seq<NamedList>, k: nat): nat
  {
    if numbers == [] then 0
    else OwnedBy(numbers[..|numbers| - 1], lists, k) + (if Owner(numbers[|numbers| - 1], lists) == Some(k) then 1 else 0)
  }

  /** Overlapping counts never fall below the first-match ownership of the streak analysis. */
  lemma {:induction false} OwnedAtMostCounted(numbers: seq<int>, lists: seq<NamedList>, k: nat)
    requires k < |lists|
    ensures OwnedBy(numbers, lists, k) <= CountIn(numbers, lists[k].numbers)
  {
    if numbers != [] {
      OwnedAtMostCounted(numbers[..|numbers| - 1], lists, k);
    }
  }

  /** The index of the entry with the given name, if any. */
  function KeyIndex(d: seq<NamedList>, name: string): (o: Option<nat>)
    ensures o.None? <==> forall k :: 0 <= k < |d| ==> d[k].name != name
    ensures o.Some? ==> o.value < |d| && d[o.value].name == name
  {
    if d == [] then None
    else if d[|d| - 1].name == name then Some(|d| - 1)
    else KeyIndex(d[..|d| - 1], name)
  }

  /** Dict keys are unique. */
  ghost predicate DistinctNames(d: seq<NamedList>) {
    forall i, j :: 0 <= i < j < |d| ==> d[i].name != d[j].name
  }

  /**
   * d[name] = numbers: an existing name keeps its place and gets the numbers,
   * a new name is added at the end; every entry of another name keeps its place.
   */
  function Assign(d: seq<NamedList>, name: string, numbers: seq<int>): (r: seq<NamedList>)
    ensures |r| == |d| + (if KeyIndex(d, name).Some? then 0 else 1)
    ensures r[if KeyIndex(d, name).Some? then KeyIndex(d, name).value else |d|] == NamedList(name, numbers)
    ensures forall k :: 0 <= k < |d| && d[k].name != name ==> r[k] == d[k]
  {
    var o := KeyIndex(d, name);
    if o.Some? then d[o.value := NamedList(name, numbers)] else d + [NamedList(name, numbers)]
  }

  /** d[e.name] = e.numbers for each entry in turn: the dictionary never shrinks, and nothing new appears. */
  function AssignAll(d: seq<NamedList>, entries: seq<NamedList>): (r: seq<NamedList>)
    ensures |r| >= |d|
    ensures forall e :: e in r ==> e in d || e in entries
  {
    if entries == [] then d
    else
      var e := entries[|entries| - 1];
      Assign(AssignAll(d, entries[..|entries| - 1]), e.name, e.numbers)
  }

  /** The selected lists' numbers one after another, in selection order. */
  function SelectedNumbers(predefined: seq<NamedList>, selection: seq<string>): (r: seq<int>)
    requires forall i :: 0 <= i < |selection| ==> KeyIndex(predefined, selection[i]).Some?
    ensures forall x :: x in r <==>
      exists i :: 0 <= i < |selection| && x in predefined[KeyIndex(predefined, selection[i]).value].numbers
  {
    if selection == [] then []
    else
      SelectedNumbers(predefined, selection[..|selection| - 1])
      + predefined[KeyIndex(predefined, selection[|selection| - 1]).value].numbers
  }

  /** The predefined entries that are not selected, in their order. */
  function Unselected(predefined: seq<NamedList>, selection: seq<string>): (r: seq<NamedList>)
    ensures forall e :: e in r ==> e in predefined && e.name !in selection
    ensures forall e :: e in predefined && e.name !in selection ==> e in r
  {
    if predefined == [] then []
    else
      var e := predefined[|predefined| - 1];
      Unselected(predefined[..|predefined| - 1], selection) + (if e.name !in selection then [e] else [])
  }

  /** The combined lists of the analysis page for a selection of predefined list names. */
  function Combined(predefined: seq<NamedList>, selection: seq<string>): (r: seq<NamedList>)
    requires forall i :: 0 <= i < |selection| ==> KeyIndex(predefined, selection[i]).Some?
    ensures r == [] <==> selection == []
  {
    if selection == [] then []
    else
      AssignAll([NamedList(JoinWith(selection, " + "), SelectedNumbers(predefined, selection))],
                Unselected(predefined, selection))
  }

  /** The combined_lists construction: extend with each selected list, then copy the unselected ones. */
  method CombineLists(predefined: seq<NamedList>, selection: seq<string>) returns (combined: seq<NamedList>)
    requires DistinctNames(predefined)
    requires forall i :: 0 <= i < |selection| ==> KeyIndex(predefined, selection[i]).Some?
    ensures combined == Combined(predefined, selection)
  {
    combined := [];
    if |selection| > 0 {
      var numbers: seq<int> := [];
      for i := 0 to |selection|
        invariant numbers == SelectedNumbers(predefined, selection[..i])
      {
        assert selection[..i + 1][..i] == selection[..i];
        numbers := numbers + predefined[KeyIndex(predefined, selection[i]).value].numbers;
      }
      assert selection[..|selection|] == selection;
      combined := [NamedList(JoinWith(selection, " + "), numbers)];
      ghost var start := combined;
      for i := 0 to |predefined|
        invariant combined == AssignAll(start, Unselected(predefined[..i], selection))
      {
        UnselectedSnoc(predefined, selection, i);
        var key := predefined[i];
        if key.name !in selection {
          AssignAllSnoc(start, Unselected(predefined[..i], selection), key);
          KeyIndexOfDistinct(predefined, i);
          combined := Assign(combined, key.name, predefined[KeyIndex(predefined, key.name).value].numbers);
        }
      }
      assert predefined[..|predefined|] == predefined;
    }
  }

  lemma KeyIndexOfDistinct(d: seq<NamedList>, i: nat)
    requires DistinctNames(d) && i < |d|
    ensures KeyIndex(d, d[i].name) == Some(i)
  {
  }

  lemma UnselectedSnoc(p: seq<NamedList>, selection: seq<string>, i: nat)
    requires i < |p|
    ensures p[i].name !in selection ==> Unselected(p[..i + 1], selection) == Unselected(p[..i], selection) + [p[i]]
    ensures p[i].name in selection ==> Unselected(p[..i + 1], selection) == Unselected(p[..i], selection)
  {
    assert p[..i + 1][..i] == p[..i];
  }

  lemma AssignAllSnoc(d: seq<NamedList>, u: seq<NamedList>, e: NamedList)
    ensures AssignAll(d, u + [e]) == Assign(AssignAll(d, u), e.name, e.numbers)
  {
    assert (u + [e])[..|u|] == u;
  }

  lemma {:induction false} UnselectedDistinct(predefined: seq<NamedList>, selection: seq<string>)
    requires DistinctNames(predefined)
    ensures DistinctNames(Unselected(predefined, selection))
  {
    if predefined != [] {
      var p := predefined[..|predefined| - 1];
      UnselectedDistinct(p, selection);
      var u := Unselected(p, selection);
      forall e | e in u
        ensures e.name != predefined[|predefined| - 1].name
      {
        var i :| 0 <= i < |p| && p[i] == e;
      }
    }
  }

  lemma AssignFresh(d: seq<NamedList>, name: string, numbers: seq<int>)
    requires KeyIndex(d, name).None?
    ensures Assign(d, name, numbers) == d + [NamedList(name, numbers)]
  {
  }

  lemma FreshLast(d: seq<NamedList>, entries: seq<NamedList>)
    requires entries != [] && DistinctNames(entries)
    requires forall i, j :: 0 <= i < |d| && 0 <= j < |entries| ==> d[i].name != entries[j].name
    ensures KeyIndex(d + entries[..|entries| - 1], entries[|entries| - 1].name).None?
  {
    var p, e := entries[..|entries| - 1], entries[|entries| - 1];
    forall k | 0 <= k < |d + p|
      ensures (d + p)[k].name != e.name
    {
      if k >= |d| {
        assert (d + p)[k] == entries[k - |d|];
      }
    }
  }

  /** Assigning fresh, distinct names only appends. */
  lemma {:induction false} AssignAllFresh(d: seq<NamedList>, entries: seq<NamedList>)
    requires DistinctNames(entries)
    requires forall i, j :: 0 <= i < |d| && 0 <= j < |entries| ==> d[i].name != entries[j].name
    ensures AssignAll(d, entries) == d + entries
  {
    if entries != [] {
      var p, e := entries[..|entries| - 1], entries[|entries| - 1];
      AssignAllFresh(d, p);
      var q := AssignAll(d, p);
      assert AssignAll(d, entries) == Assign(q, e.name, e.numbers);
      FreshLast(d, entries);
      AssignFresh(q, e.name, e.numbers);
      assert d + entries == q + [e];
    }
  }

  /**
   * The combined entry comes first, under the " + "-joined name, holding the selected
   * lists one after another; the unselected lists follow unchanged, in their order.
   */
  lemma CombinedShape(predefined: seq<NamedList>, selection: seq<string>)
    requires DistinctNames(predefined)
    requires forall i :: 0 <= i < |selection| ==> KeyIndex(predefined, selection[i]).Some?
    requires forall e :: e in Unselected(predefined, selection) ==> e.name != JoinWith(selection, " + ")
    ensures selection == [] ==> Combined(predefined, selection) == []
    ensures selection != [] ==>
      Combined(predefined, selection) ==
        [NamedList(JoinWith(selection, " + "), SelectedNumbers(predefined, selection))]
        + Unselected(predefined, selection)
  {
    if selection != [] {
      UnselectedDistinct(predefined, selection);
      var u := Unselected(predefined, selection);
      assert forall j :: 0 <= j < |u| ==> u[j] in u;
      AssignAllFresh([NamedList(JoinWith(selection, " + "), SelectedNumbers(predefined, selection))], u);
    }
  }

  lemma JoinWithLength(parts: seq<string>, sep: string)
    requires parts != []
    ensures |JoinWith(parts, sep)| >= |parts[0]|
    ensures |parts| >= 2 ==> |JoinWith(parts, sep)| >= |parts[0]| + |sep| + |parts[1]|
  {
    if |parts| >= 2 {
      assert parts[1..][0] == parts[1];
    }
  }

  /** A joined name of selected names of at least 3 letters is new to entries whose names have at most 5. */
  lemma JoinedNameFresh(predefined: seq<NamedList>, selection: seq<string>)
    requires selection != []
    requires forall i :: 0 <= i < |selection| ==> |selection[i]| >= 3
    requires forall e :: e in predefined ==> |e.name| <= 5
    ensures forall e :: e in Unselected(predefined, selection) ==> e.name != JoinWith(selection, " + ")
  {
    var joined := JoinWith(selection, " + ");
    JoinWithLength(selection, " + ");
    forall e | e in Unselected(predefined, selection)
      ensures e.name != joined
    {
      if |selection| == 1 {
        assert joined == selection[0];
      } else {
        assert |selection[0]| >= 3 && |selection[1]| >= 3;
      }
    }
  }

  /** The analysis page's lists have distinct, short names, found at their own indices. */
  lemma ClassListsNames()
    ensures DistinctNames(ClassLists)
    ensures forall e :: e in ClassLists ==> |e.name| <= 5
    ensures KeyIndex(ClassLists, "Big") == Some(0)
    ensures KeyIndex(ClassLists, "Orph") == Some(1)
    ensures KeyIndex(ClassLists, "Small") == Some(2)
  {
    assert DistinctNames(ClassLists);
    KeyIndexOfDistinct(ClassLists, 0);
    KeyIndexOfDistinct(ClassLists, 1);
    KeyIndexOfDistinct(ClassLists, 2);
  }

  /**
   * On the analysis page's own lists, any selection of their names gives the
   * combined entry first and the unselected lists after it: the joined name can
   * never clash with a remaining name.
   */
  lemma ClassListsCombined(selection: seq<string>)
    requires forall i :: 0 <= i < |selection| ==> selection[i] == "Big" || selection[i] == "Orph" || selection[i] == "Small"
    ensures forall i :: 0 <= i < |selection| ==> KeyIndex(ClassLists, selection[i]).Some?
    ensures selection != [] ==>
      Combined(ClassLists, selection) ==
        [NamedList(JoinWith(selection, " + "), SelectedNumbers(ClassLists, selection))]
        + Unselected(ClassLists, selection)
  {
    ClassListsNames();
    if selection != [] {
      JoinedNameFresh(ClassLists, selection);
      CombinedShape(ClassLists, selection);
    }
  }
}
