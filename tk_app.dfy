/**
 * The Tkinter number logger: the window keeps the session's numbers in a
 * list that mirrors the game's CSV file, shows the three dozen counts, the
 * history from last to first tagged by colour, and the sector history with a
 * line break after every 20 numbers; its 37 number buttons sit on a grid of
 * rows of 12.
 */
module TkApp {
  import opened Seqs
  import opened Text
  import opened Roulette

  /** The window: the in-memory list of numbers and the rows of the game's CSV file. */
  class RouletteApp {
    var numbers: seq<int>
    var stored: seq<int>

    /** The in-memory list mirrors the file. */
    predicate Mirrors()
      reads this
    {
      numbers == stored
    }

    /** The window starts from the numbers loaded from the file. */
    constructor (loaded: seq<int>)
      ensures numbers == loaded && stored == loaded
      ensures Mirrors()
    {
      numbers := loaded;
      stored := loaded;
    }

    /** add_number: the number is written to the file and appended to the list. */
    method AddNumber(num: int)
      modifies this
      ensures stored == old(stored) + [num]
      ensures numbers == old(numbers) + [num]
      ensures old(Mirrors()) ==> Mirrors()
    {
      stored := stored + [num];
      numbers := numbers + [num];
    }

    /** undo: the file loses its last row and the list its last number, when there is one. */
    method Undo()
      modifies this
      ensures stored == DropLast(old(stored))
      ensures numbers == DropLast(old(numbers))
      ensures old(Mirrors()) ==> Mirrors()
    {
      stored := DropLast(stored);
      if numbers != [] {
        numbers := numbers[..|numbers| - 1];
      }
    }

    /** The three dozen counts of update_ui; on spins they and the zeros account for every number. */
    function DozenCounts(): (d: (nat, nat, nat))
      reads this
      ensures (forall i :: 0 <= i < |numbers| ==> IsSpin(numbers[i])) ==>
        d.0 + d.1 + d.2 + DozenCount(numbers, 0, 0) == |numbers|
    {
      var d := (DozenCount(numbers, 1, 12), DozenCount(numbers, 13, 24), DozenCount(numbers, 25, 36));
      if forall i :: 0 <= i < |numbers| ==> IsSpin(numbers[i]) then DozensPartition(numbers); d else d
    }
  }

  /** Adding a number and undoing it restores both the list and the file. */
  method AddThenUndo(app: RouletteApp, num: int)
    modifies app
    ensures app.numbers == old(app.numbers) && app.stored == old(app.stored)
  {
    app.AddNumber(num);
    app.Undo();
    DropLastAppend(old(app.numbers), num);
    DropLastAppend(old(app.stored), num);
  }

  /** A piece inserted into a text widget: a number with the tag that colours it, or a line break. */
  datatype Segment = Number(num: int, tag: string) | LineBreak

  /** The text a piece inserts: the number followed by a space, or a newline. */
  function SegmentText(s: Segment): string
  {
    match s
    case Number(num, _) => IntToString(num) + " "
    case LineBreak => "\n"
  }

  /** One tagged piece per number, from last to first, each tagged by the colouring function. */
  method TagHistory(numbers: seq<int>, color: int -> string) returns (segs: seq<Segment>)
    ensures |segs| == |numbers|
    ensures forall p :: 0 <= p < |numbers| ==>
      segs[p] == Number(numbers[|numbers| - 1 - p], color(numbers[|numbers| - 1 - p]))
  {
    var rev := Reverse(numbers);
    segs := [];
    for p := 0 to |rev|
      invariant |segs| == p
      invariant forall q :: 0 <= q < p ==> segs[q] == Number(rev[q], color(rev[q]))
    {
      segs := segs + [Number(rev[p], color(rev[p]))];
    }
  }

  /** show_history: the numbers from last to first, each tagged with its colour name. */
  method ShowHistory(numbers: seq<int>) returns (segs: seq<Segment>)
    ensures |segs| == |numbers|
    ensures forall p :: 0 <= p < |numbers| ==>
      segs[p] == Number(numbers[|numbers| - 1 - p], ColorName(numbers[|numbers| - 1 - p]))
  {
    segs := TagHistory(numbers, ColorName);
  }

  /** Where the sector history puts the number at index p of the reversed list: after p / 20 line breaks. */
  function Slot(p: nat): nat
  {
    p + p / 20
  }

  /** The next number goes one place after the previous one, or two places after a 20th number. */
  lemma SlotStep(p: nat)
    ensures Slot(p + 1) == Slot(p) + (if (p + 1) % 20 == 0 then 2 else 1)
  {
  }

  /**
   * The loop of show_sector_history for a colouring function: one tagged piece
   * per number from last to first, and a line break right after the 20th, 40th,
   * ... number and nowhere else.
   */
  method TagLines(numbers: seq<int>, color: int -> string) returns (segs: seq<Segment>)
    ensures |segs| == Slot(|numbers|)
    ensures forall p :: 0 <= p < |numbers| ==>
      segs[Slot(p)] == Number(numbers[|numbers| - 1 - p], color(numbers[|numbers| - 1 - p]))
    ensures forall p :: 0 <= p < |numbers| && (p + 1) % 20 == 0 ==> segs[Slot(p) + 1] == LineBreak
  {
    var rev := Reverse(numbers);
    segs := [];
    for i := 0 to |rev|
      invariant |segs| == Slot(i)
      invariant forall p :: 0 <= p < i ==> Slot(p) < |segs| && segs[Slot(p)] == Number(rev[p], color(rev[p]))
      invariant forall p :: 0 <= p < i && (p + 1) % 20 == 0 ==> Slot(p) + 1 < |segs| && segs[Slot(p) + 1] == LineBreak
    {
      SlotStep(i);
      segs := segs + [Number(rev[i], color(rev[i]))];
      if (i + 1) % 20 == 0 {
        segs := segs + [LineBreak];
      }
    }
  }

  /** Slots grow with the index. */
  lemma SlotOrder(p: nat, n: nat)
    requires Slot(p) < Slot(n)
    ensures p < n
  {
  }

  /** Every place of the sector history holds a number or the line break after a 20th number: there is nothing else. */
  lemma SlotsCover(n: nat, q: nat)
    requires q < Slot(n)
    ensures exists p :: 0 <= p < n && (Slot(p) == q || ((p + 1) % 20 == 0 && Slot(p) + 1 == q))
  {
    var b, r := q / 21, q % 21;
    var p := if r < 20 then 20 * b + r else 20 * b + 19;
    assert p / 20 == b;
    assert Slot(p) == q || ((p + 1) % 20 == 0 && Slot(p) + 1 == q);
    SlotOrder(p, n);
  }

  /** show_sector_history: the sector history, tagged with the sector names. */
  method ShowSectorHistory(numbers: seq<int>) returns (segs: seq<Segment>)
    ensures |segs| == Slot(|numbers|)
    ensures forall p :: 0 <= p < |numbers| ==>
      segs[Slot(p)] == Number(numbers[|numbers| - 1 - p], SectorName(numbers[|numbers| - 1 - p]))
    ensures forall p :: 0 <= p < |numbers| && (p + 1) % 20 == 0 ==> segs[Slot(p) + 1] == LineBreak
  {
    segs := TagLines(numbers, SectorName);
  }

  /** A number's piece never reads as a line break. */
  lemma NumberTextNotBreak(num: int, tag: string)
    ensures SegmentText(Number(num, tag)) != SegmentText(LineBreak)
  {
    var s := IntToString(num) + " ";
    assert s[|s| - 1] == ' ';
  }

  /** The grid cells of the 37 number buttons: divmod(num, 12) for num in range(37). */
  method ButtonGrid() returns (cells: seq<(int, int)>)
    ensures |cells| == 37
    ensures forall n :: 0 <= n < 37 ==> cells[n] == (n / 12, n % 12)
  {
    cells := [];
    for num := 0 to 37
      invariant |cells| == num
      invariant forall n :: 0 <= n < num ==> cells[n] == (n / 12, n % 12)
    {
      var r, c := num / 12, num % 12;
      cells := cells + [(r, c)];
    }
  }

  /** Each button gets its own cell, in one of the 12 columns and 4 rows. */
  lemma GridCellsDistinct(cells: seq<(int, int)>)
    requires |cells| == 37 && forall n :: 0 <= n < 37 ==> cells[n] == (n / 12, n % 12)
    ensures forall n :: 0 <= n < 37 ==> 0 <= cells[n].0 < 4 && 0 <= cells[n].1 < 12
    ensures forall n, m :: 0 <= n < m < 37 ==> cells[n] != cells[m]
  {
    forall n, m | 0 <= n < m < 37
      ensures cells[n] != cells[m]
    {
      assert n == 12 * (n / 12) + n % 12 && m == 12 * (m / 12) + m % 12;
    }
  }
}
