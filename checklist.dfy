/**
 * The daily trading checklist page: the items and the ticked items are loaded
 * from the stored record (or the defaults), one item may be added, the ticked
 * boxes are collected in item order, selected items may be deleted, the
 * record (items, ticked today) is saved, and the page says whether every item
 * was completed.
 */
module Checklist {
  import opened Seqs
  import opened Text

  /** The checklist used when nothing has been stored yet. */
  const DefaultItems: seq<string> := [
    "Are market conditions (volatility, trend) right for this trade?",
    "Are there major news events that may occur during the trade?",
    "Correct entry point based on strategy?",
    "Is the stop loss reasonable for the potential reward?",
    "How am I getting out of this trade? (Describe)",
    "Is my position size correct?",
    "Am I violating any of my Trading Plan rules?",
    "Am I allowed to trade? (Not on a forced break due to recent losses)",
    "Am I placing this order in the correct hours/my established trading time?",
    "Is it within my max number of positions I can hold at one time?",
    "Is it within my leverage tolerance?",
    "Did I find this trade through the proper means? (Not a 'tip' but from my own research)",
    "What should I remember during the trade? (Key point you've struggled with recently)",
    "Am I in the right mind frame for this trade?",
    "My expectations are realistic",
    "I have a probability-tested edge",
    "Trading aligns with my 'ideal self'",
    "No one is influencing me",
    "My entry criteria is clear, now I wait",
    "I am self-aware of my impulses",
    "Sleep was great, exercise was great",
    "My brain and belly have been fed",
    "Trades must meet my criteria",
    "I completely accept my defined risk",
    "Position size is in-line with my process",
    "Good habits are forming in my trading",
    "I am calm, relaxed, and focused"
  ]

  /** The stored record: the items and the items ticked on the last visit. */
  datatype Saved = Saved(items: seq<string>, checked: seq<string>)

  /** The items whose checkbox (keyed by index) is ticked, in item order. */
  function Ticked(items: seq<string>, ticked: nat -> bool): (r: seq<string>)
    ensures |r| <= |items|
    ensures forall k :: 0 <= k < |r| ==> r[k] in items
    ensures |r| == |items| <==> forall i :: 0 <= i < |items| ==> ticked(i)
  {
    if items == [] then []
    else Ticked(items[..|items| - 1], ticked) + (if ticked(|items| - 1) then [items[|items| - 1]] else [])
  }

  /** The ticked items keep the order of the checklist. */
  lemma {:induction false} TickedInOrder(items: seq<string>, ticked: nat -> bool)
    ensures SubsequenceOf(Ticked(items, ticked), items)
  {
    if items != [] {
      var front, last := items[..|items| - 1], items[|items| - 1];
      TickedInOrder(front, ticked);
      assert front + [last] == items;
      assert Ticked(items, ticked) == Ticked(front, ticked) + (if ticked(|items| - 1) then [last] else []);
      if ticked(|items| - 1) {
        SubsequenceSnoc(Ticked(front, ticked), front, last);
      } else {
        assert Ticked(items, ticked) == Ticked(front, ticked);
        SubsequenceExtend(Ticked(front, ticked), front, last);
      }
    }
  }

  /** A text is ticked exactly when some checkbox showing it is ticked. */
  lemma {:induction false} TickedMembers(items: seq<string>, ticked: nat -> bool, x: string)
    ensures x in Ticked(items, ticked) <==> exists i :: 0 <= i < |items| && items[i] == x && ticked(i)
  {
    if items != [] {
      var front := items[..|items| - 1];
      TickedMembers(front, ticked, x);
      if x in Ticked(front, ticked) {
        var i :| 0 <= i < |front| && front[i] == x && ticked(i);
        assert items[i] == x;
      }
      if exists i :: 0 <= i < |items| && items[i] == x && ticked(i) {
        var i :| 0 <= i < |items| && items[i] == x && ticked(i);
        if i < |front| {
          assert front[i] == x;
        }
      }
    }
  }

  /** With every box ticked, the ticked items are the whole checklist. */
  lemma {:induction false} TickedAll(items: seq<string>, ticked: nat -> bool)
    requires forall i :: 0 <= i < |items| ==> ticked(i)
    ensures Ticked(items, ticked) == items
  {
    if items != [] {
      TickedAll(items[..|items| - 1], ticked);
    }
  }

  /** The items not selected for deletion, in order. */
  function Without(items: seq<string>, toDelete: seq<string>): (r: seq<string>)
    ensures forall x :: x in r <==> x in items && x !in toDelete
  {
    if items == [] then []
    else
      assert items == items[..|items| - 1] + [items[|items| - 1]];
      Without(items[..|items| - 1], toDelete) + (if items[|items| - 1] in toDelete then [] else [items[|items| - 1]])
  }

  /** Deleting keeps the order of the remaining items. */
  lemma {:induction false} WithoutInOrder(items: seq<string>, toDelete: seq<string>)
    ensures SubsequenceOf(Without(items, toDelete), items)
  {
    if items != [] {
      var front, last := items[..|items| - 1], items[|items| - 1];
      WithoutInOrder(front, toDelete);
      assert front + [last] == items;
      assert Without(items, toDelete) == Without(front, toDelete) + (if last in toDelete then [] else [last]);
      if last in toDelete {
        assert Without(items, toDelete) == Without(front, toDelete);
        SubsequenceExtend(Without(front, toDelete), front, last);
      } else {
        SubsequenceSnoc(Without(front, toDelete), front, last);
      }
    }
  }

  /**
   * The checkbox states of the items that stay after a delete, in order; a box
   * the page never showed (an index past the boxes read) counts as unticked.
   */
  function KeptBoxes(items: seq<string>, boxes: seq<bool>, toDelete: seq<string>): (r: seq<bool>)
    ensures |r| <= |items|
  {
    if items == [] then []
    else
      var n := |items| - 1;
      KeptBoxes(items[..n], boxes, toDelete) + (if items[n] in toDelete then [] else [n < |boxes| && boxes[n]])
  }

  /** The kept boxes line up with the kept items: one box per remaining item. */
  lemma {:induction false} KeptBoxesLength(items: seq<string>, boxes: seq<bool>, toDelete: seq<string>)
    ensures |KeptBoxes(items, boxes, toDelete)| == |Without(items, toDelete)|
  {
    if items != [] {
      KeptBoxesLength(items[..|items| - 1], boxes, toDelete);
    }
  }

  /** Every box in the list is ticked. */
  predicate AllTicked(r: seq<bool>)
  {
    forall k :: 0 <= k < |r| ==> r[k]
  }

  /** The box of every item not deleted was shown and is ticked. */
  predicate KeptTicked(items: seq<string>, boxes: seq<bool>, toDelete: seq<string>)
  {
    forall i :: 0 <= i < |items| && items[i] !in toDelete ==> i < |boxes| && boxes[i]
  }

  /** The condition on the boxes splits into the items before the last one and the last one. */
  lemma KeptTickedSnoc(items: seq<string>, boxes: seq<bool>, toDelete: seq<string>)
    requires items != []
    ensures var n := |items| - 1;
      KeptTicked(items, boxes, toDelete) <==>
      KeptTicked(items[..n], boxes, toDelete) && (items[n] !in toDelete ==> n < |boxes| && boxes[n])
  {
    var n := |items| - 1;
    var front := items[..n];
    if KeptTicked(front, boxes, toDelete) && (items[n] !in toDelete ==> n < |boxes| && boxes[n]) {
      forall i | 0 <= i < |items| && items[i] !in toDelete
        ensures i < |boxes| && boxes[i]
      {
        if i < n {
          assert front[i] == items[i];
        }
      }
    }
    if KeptTicked(items, boxes, toDelete) {
      forall i | 0 <= i < |front| && front[i] !in toDelete
        ensures i < |boxes| && boxes[i]
      {
        assert front[i] == items[i];
      }
    }
  }

  /** Appending one box keeps every box ticked exactly when the new one is. */
  lemma AllTickedSnoc(prev: seq<bool>, last: bool)
    ensures AllTicked(prev + [last]) <==> AllTicked(prev) && last
  {
    var r := prev + [last];
    assert r[|prev|] == last;
    if AllTicked(r) {
      forall k | 0 <= k < |prev|
        ensures prev[k]
      {
        assert r[k] == prev[k];
      }
    }
  }

  /** Every kept box is ticked exactly when every box of an item not deleted is ticked. */
  lemma {:induction false} KeptBoxesAll(items: seq<string>, boxes: seq<bool>, toDelete: seq<string>)
    ensures AllTicked(KeptBoxes(items, boxes, toDelete)) <==> KeptTicked(items, boxes, toDelete)
  {
    if items != [] {
      var n := |items| - 1;
      KeptBoxesAll(items[..n], boxes, toDelete);
      KeptTickedSnoc(items, boxes, toDelete);
      var prev := KeptBoxes(items[..n], boxes, toDelete);
      if items[n] !in toDelete {
        assert KeptBoxes(items, boxes, toDelete) == prev + [n < |boxes| && boxes[n]];
        AllTickedSnoc(prev, n < |boxes| && boxes[n]);
      } else {
        assert KeptBoxes(items, boxes, toDelete) == prev;
      }
    }
  }

  /** The page's state during one run of the script. */
  class Page {
    var items: seq<string>
    var checked: set<string>
    var checkedToday: seq<string>
    /** The checkbox states read on this run, one per item shown. */
    var boxes: seq<bool>

    /** load_checklist: the stored record, or the default items with nothing ticked. */
    constructor Load(stored: Option<Saved>)
      ensures stored.None? ==> items == DefaultItems && checked == {}
      ensures stored.Some? ==> items == stored.value.items && checked == set x | x in stored.value.checked
      ensures checkedToday == [] && boxes == []
    {
      if stored.None? {
        items := DefaultItems;
        checked := {};
      } else {
        items := stored.value.items;
        checked := set x | x in stored.value.checked;
      }
      checkedToday := [];
      boxes := [];
    }

    /** The add form: a submitted text that is not blank is appended, stripped. */
    method AddItem(newItem: string, submitted: bool)
      modifies this
      ensures items == old(items) + (if submitted && !Blank(newItem) then [Strip(newItem)] else [])
      ensures checked == old(checked) && checkedToday == old(checkedToday) && boxes == old(boxes)
    {
      if submitted && Strip(newItem) != [] {
        items := items + [Strip(newItem)];
      }
    }

    /** The checkbox loop: each box's state, and the items whose box is ticked, in order. */
    method CollectChecked(ticked: nat -> bool)
      modifies this
      ensures checkedToday == Ticked(items, ticked)
      ensures |boxes| == |items| && forall i :: 0 <= i < |items| ==> boxes[i] == ticked(i)
      ensures items == old(items) && checked == old(checked)
    {
      var all := items;
      var today := [];
      var states := [];
      for idx := 0 to |all|
        invariant today == Ticked(all[..idx], ticked)
        invariant |states| == idx && forall i :: 0 <= i < idx ==> states[i] == ticked(i)
      {
        assert all[..idx + 1][..idx] == all[..idx];
        var checkedState := ticked(idx);
        if checkedState {
          today := today + [all[idx]];
        }
        states := states + [checkedState];
      }
      assert all[..|all|] == all;
      checkedToday := today;
      boxes := states;
    }

    /** The delete button: the selected items leave the items, their boxes and the stored ticks. */
    method DeleteSelected(toDelete: seq<string>, pressed: bool)
      modifies this
      ensures items == if pressed then Without(old(items), toDelete) else old(items)
      ensures boxes == if pressed then KeptBoxes(old(items), old(boxes), toDelete) else old(boxes)
      ensures checked == if pressed then old(checked) - set x | x in toDelete else old(checked)
      ensures checkedToday == old(checkedToday)
    {
      if pressed {
        boxes := KeptBoxes(items, boxes, toDelete);
        items := Without(items, toDelete);
        checked := checked - set x | x in toDelete;
      }
    }

    /** The completion test as the page writes it: as many ticks as items, and some items. */
    function AllCompletedAsWritten(): bool
      reads this
    {
      |checkedToday| == |items| && items != []
    }

    /** The completion test the message promises: some items, each of whose boxes is ticked. */
    function AllCompleted(): (b: bool)
      reads this
      ensures b ==> items != [] && |boxes| == |items|
    {
      items != [] && |boxes| == |items| && AllTicked(boxes)
    }
  }

  /** Without a deletion the written test and the corrected one agree: equal counts mean every box was ticked. */
  lemma AsWrittenWithoutDelete(items: seq<string>, ticked: nat -> bool)
    ensures (|Ticked(items, ticked)| == |items| && items != []) <==>
      (items != [] && forall i :: 0 <= i < |items| ==> ticked(i))
  {
  }

  /**
   * The ticks are collected before the delete: with items a and b, a ticked
   * and then deleted, the counts agree and the page reports completion
   * although b was never ticked; the corrected test sees b's unticked box.
   */
  lemma AsWrittenAfterDelete()
    ensures var items := ["a", "b"];
      var t := Ticked(items, i => i == 0);
      var rest := Without(items, ["a"]);
      && |t| == |rest| && rest != [] && rest[0] !in t
      && !(forall i :: 0 <= i < |items| && items[i] !in ["a"] ==> i == 0)
  {
    var items := ["a", "b"];
    assert items[..1] == ["a"];
    assert Ticked(items[..1], i => i == 0) == ["a"] by {
      assert items[..1][..0] == [];
    }
    assert Without(items[..1], ["a"]) == [] by {
      assert items[..1][..0] == [];
    }
    assert "b" != "a" by {
      assert "b"[0] != "a"[0];
    }
    assert items[1] !in ["a"];
  }

  /** With every remaining box ticked, every remaining item is among the saved ticks. */
  lemma CompletedMeans(items: seq<string>, ticked: nat -> bool, toDelete: seq<string>)
    requires forall i :: 0 <= i < |items| && items[i] !in toDelete ==> ticked(i)
    ensures forall k :: 0 <= k < |Without(items, toDelete)| ==> Without(items, toDelete)[k] in Ticked(items, ticked)
  {
    var rest := Without(items, toDelete);
    forall k | 0 <= k < |rest|
      ensures rest[k] in Ticked(items, ticked)
    {
      var x := rest[k];
      assert x in rest;
      var i :| 0 <= i < |items| && items[i] == x;
      TickedMembers(items, ticked, x);
    }
  }

  /** A test by item text misses a repeated item: with a, a and only the first box ticked, every text is ticked. */
  lemma ByTextMissesRepeats()
    ensures var items := ["a", "a"];
      && (forall k :: 0 <= k < |items| ==> items[k] in Ticked(items, i => i == 0))
      && |Ticked(items, i => i == 0)| != |items|
  {
    var items := ["a", "a"];
    assert items[..1] == ["a"];
    assert Ticked(items[..1], i => i == 0) == ["a"] by {
      assert items[..1][..0] == [];
    }
  }

  /**
   * One run of the page: load, add, collect the ticks, delete, save. The saved
   * record holds the items after the add and the delete and the ticks taken
   * before the delete. The page reports completion as written, by comparing
   * counts; the corrected test holds when some items remain and the box of
   * every item not deleted was ticked. Without a delete the two agree.
   */
  method Session(stored: Option<Saved>, newItem: string, submitted: bool, ticked: nat -> bool,
                 toDelete: seq<string>, pressed: bool) returns (saved: Saved, completedAsWritten: bool, completed: bool)
    ensures var loaded := if stored.None? then DefaultItems else stored.value.items;
      var items := loaded + (if submitted && !Blank(newItem) then [Strip(newItem)] else []);
      var after := if pressed then Without(items, toDelete) else items;
      && saved == Saved(after, Ticked(items, ticked))
      && (completedAsWritten <==> |Ticked(items, ticked)| == |after| && after != [])
      && (completed <==> after != [] && forall i :: 0 <= i < |items| && !(pressed && items[i] in toDelete) ==> ticked(i))
      && (!pressed ==> (completedAsWritten <==> completed))
  {
    var page := new Page.Load(stored);
    page.AddItem(newItem, submitted);
    page.CollectChecked(ticked);
    ghost var items, boxes := page.items, page.boxes;
    page.DeleteSelected(toDelete, pressed);
    saved := Saved(page.items, page.checkedToday);
    completedAsWritten := page.AllCompletedAsWritten();
    completed := page.AllCompleted();
    if pressed {
      KeptBoxesAll(items, boxes, toDelete);
      KeptBoxesLength(items, boxes, toDelete);
    } else {
      AsWrittenWithoutDelete(items, ticked);
    }
  }
}
