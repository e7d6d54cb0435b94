/**
 * The Streamlit number logger: a stored column of spins with append and
 * undo, HTML spans that colour a number by its colour or its wheel sector,
 * the history shown last to first (optionally in rows of a fixed width),
 * the dozen metrics and the 0..36 button grid.
 */
module RouletteApp {
  import opened Seqs
  import opened Text
  import opened Roulette

  /** The stored history of the logger: the Number column of its CSV file. */
  class NumberLog {
    var numbers: seq<int>

    /** A freshly created file holds no numbers. */
    constructor ()
      ensures numbers == []
    {
      numbers := [];
    }

    /** save_number: appends one entry at the end. */
    method SaveNumber(num: int)
      modifies this
      ensures numbers == old(numbers) + [num]
    {
      numbers := numbers + [num];
    }

    /** undo_last: drops the last entry, and leaves an empty log alone. */
    method UndoLast()
      modifies this
      ensures numbers == DropLast(old(numbers))
    {
      if numbers != [] {
        numbers := numbers[..|numbers| - 1];
      }
    }
  }

  /** Saving a number and undoing it leaves the log as it was. */
  method SaveThenUndo(log: NumberLog, num: int)
    modifies log
    ensures log.numbers == old(log.numbers)
  {
    log.SaveNumber(num);
    log.UndoLast();
    DropLastAppend(old(log.numbers), num);
  }

  const SpanOpen: string := "<span style='color:"
  const SpanMid: string := "; font-weight:bold'>"
  const SpanClose: string := "</span>"

  /** The text between an opening, a middle and a closing marker, after a colour. */
  function Wrap(open: string, color: string, mid: string, text: string, close: string): string
  {
    open + color + mid + text + close
  }

  /** The bold HTML span showing text in the given colour. */
  function Span(color: string, text: string): string
  {
    Wrap(SpanOpen, color, SpanMid, text, SpanClose)
  }

  /** The index of the first ';' in s, or |s| when there is none. */
  function SemicolonAt(s: string): (k: nat)
    ensures k <= |s|
  {
    if s == [] || s[0] == ';' then 0 else 1 + SemicolonAt(s[1..])
  }

  /** A colour without ';' followed by text starting with ';' is read back up to that ';'. */
  lemma {:induction false} SemicolonAfter(c: string, r: string)
    requires ';' !in c && r != [] && r[0] == ';'
    ensures SemicolonAt(c + r) == |c|
  {
    if c != [] {
      assert (c + r)[1..] == c[1..] + r;
      SemicolonAfter(c[1..], r);
    } else {
      assert c + r == r;
    }
  }

  /** After a common prefix, a part without ';' that is followed by ';' is determined, and so is the rest. */
  lemma CutAtSemicolon(o: string, c1: string, r1: string, c2: string, r2: string)
    requires ';' !in c1 && ';' !in c2
    requires r1 != [] && r1[0] == ';' && r2 != [] && r2[0] == ';'
    requires o + (c1 + r1) == o + (c2 + r2)
    ensures c1 == c2 && r1 == r2
  {
    var u := (o + (c1 + r1))[|o|..];
    assert u == c1 + r1 && u == c2 + r2;
    SemicolonAfter(c1, r1);
    SemicolonAfter(c2, r2);
    assert c1 == u[..|c1|] == c2;
    assert r1 == u[|c1|..] == r2;
  }

  /** Text between a common opening and a common closing is determined. */
  lemma Between(m: string, t1: string, t2: string, e: string)
    requires m + t1 + e == m + t2 + e
    ensures t1 == t2
  {
    var s := m + t1 + e;
    assert t1 == s[|m|..|s| - |e|] == t2;
  }

  /** With a middle marker starting with ';', a colour without ';' and the text are read back from the wrapping. */
  lemma WrapInjective(open: string, c1: string, t1: string, c2: string, t2: string, mid: string, close: string)
    requires ';' !in c1 && ';' !in c2 && mid != [] && mid[0] == ';'
    requires Wrap(open, c1, mid, t1, close) == Wrap(open, c2, mid, t2, close)
    ensures c1 == c2 && t1 == t2
  {
    var r1, r2 := mid + t1 + close, mid + t2 + close;
    assert open + (c1 + r1) == Wrap(open, c1, mid, t1, close);
    assert open + (c2 + r2) == Wrap(open, c2, mid, t2, close);
    CutAtSemicolon(open, c1, r1, c2, r2);
    Between(mid, t1, t2, close);
  }

  /** A span determines its colour and its text, as long as the colour holds no ';'. */
  lemma SpanInjective(c1: string, t1: string, c2: string, t2: string)
    requires ';' !in c1 && ';' !in c2
    requires Span(c1, t1) == Span(c2, t2)
    ensures c1 == c2 && t1 == t2
  {
    WrapInjective(SpanOpen, c1, t1, c2, t2, SpanMid, SpanClose);
  }

  /** color_number: the number shown in green (0), red or black. */
  function ColorNumber(num: int): string
  {
    Span(ColorName(num), IntToString(num))
  }

  /** sector_color: the number shown in green (Voisins), blue (Orphelins) or orange. */
  function SectorColor(num: int): string
  {
    Span(SectorName(num), IntToString(num))
  }

  /** Reading a colour span back gives the number's colour name and its decimal text. */
  lemma ColorNumberReads(num: int, c: string, t: string)
    requires ';' !in c && ColorNumber(num) == Span(c, t)
    ensures c == ColorName(num) && t == IntToString(num)
  {
    SpanInjective(ColorName(num), IntToString(num), c, t);
  }

  /** Reading a sector span back gives the number's sector name and its decimal text. */
  lemma SectorColorReads(num: int, c: string, t: string)
    requires ';' !in c && SectorColor(num) == Span(c, t)
    ensures c == SectorName(num) && t == IntToString(num)
  {
    SpanInjective(SectorName(num), IntToString(num), c, t);
  }

  /** Different numbers get different colour spans. */
  lemma ColorNumberInjective(a: int, b: int)
    requires ColorNumber(a) == ColorNumber(b)
    ensures a == b
  {
    SpanInjective(ColorName(a), IntToString(a), ColorName(b), IntToString(b));
    IntToStringInjective(a, b);
  }

  /** Different numbers get different sector spans. */
  lemma SectorColorInjective(a: int, b: int)
    requires SectorColor(a) == SectorColor(b)
    ensures a == b
  {
    SpanInjective(SectorName(a), IntToString(a), SectorName(b), IntToString(b));
    IntToStringInjective(a, b);
  }

  /** The numbers shown one by one with the colouring function. */
  function Render(color: int -> string, xs: seq<int>): (r: seq<string>)
    ensures |r| == |xs| && forall i :: 0 <= i < |xs| ==> r[i] == color(xs[i])
  {
    seq(|xs|, i requires 0 <= i < |xs| => color(xs[i]))
  }

  /** One row of the history: its coloured numbers joined by single spaces. */
  function Row(color: int -> string, xs: seq<int>): string
  {
    JoinWith(Render(color, xs), " ")
  }

  /** The rows of a list of chunks. */
  function Rows(color: int -> string, cs: seq<seq<int>>): (r: seq<string>)
    ensures |r| == |cs| && forall j :: 0 <= j < |cs| ==> r[j] == Row(color, cs[j])
  {
    seq(|cs|, j requires 0 <= j < |cs| => Row(color, cs[j]))
  }

  /**
   * xs cut into consecutive pieces of k numbers, the last one possibly shorter:
   * the slices xs[i:i+k] for i in range(0, len(xs), k).
   */
  function Chunks(xs: seq<int>, k: nat): (cs: seq<seq<int>>)
    requires k > 0
    ensures forall j :: 0 <= j < |cs| ==> 1 <= |cs[j]| <= k
    ensures k * |cs| >= |xs| && (|cs| > 0 ==> k * (|cs| - 1) < |xs|)
    decreases |xs|
  {
    if xs == [] then []
    else
      var m := if k < |xs| then k else |xs|;
      [xs[..m]] + Chunks(xs[m..], k)
  }

  /** Chunking splits the list without losing, adding or reordering anything. */
  lemma {:induction false} ChunksFlatten(xs: seq<int>, k: nat)
    requires k > 0
    ensures Flatten(Chunks(xs, k)) == xs
    decreases |xs|
  {
    if xs != [] {
      var m := if k < |xs| then k else |xs|;
      ChunksFlatten(xs[m..], k);
      FlattenAppend([xs[..m]], Chunks(xs[m..], k));
      FlattenSingle(xs[..m]);
      assert xs == xs[..m] + xs[m..];
    }
  }

  /** Every chunk but the last is full. */
  lemma {:induction false} ChunksFull(xs: seq<int>, k: nat, j: nat)
    requires k > 0 && j + 1 < |Chunks(xs, k)|
    ensures |Chunks(xs, k)[j]| == k
    decreases |xs|
  {
    var m := if k < |xs| then k else |xs|;
    if j > 0 {
      ChunksFull(xs[m..], k, j - 1);
    }
  }

  /** The chunk that starts at index i, and the chunks after it. */
  lemma ChunksAt(xs: seq<int>, k: nat, i: nat)
    requires k > 0 && i < |xs|
    ensures var m := if k < |xs| - i then k else |xs| - i;
      Chunks(xs[i..], k) == [xs[i..i + m]] + Chunks(xs[i + m..], k)
  {
    var m := if k < |xs| - i then k else |xs| - i;
    var t := xs[i..];
    assert t[..m] == xs[i..i + m];
    assert t[m..] == xs[i + m..];
  }

  /** A new row after the rows of the chunks already done. */
  lemma RowsSnoc(color: int -> string, done: seq<seq<int>>, c: seq<int>)
    ensures Rows(color, done + [c]) == Rows(color, done) + [Row(color, c)]
  {
  }

  /** Taking the chunk at index i moves it from the pending chunks to the ones done. */
  lemma ChunkStep(xs: seq<int>, k: nat, i: nat, done: seq<seq<int>>)
    requires k > 0 && i < |xs|
    requires done + Chunks(xs[i..], k) == Chunks(xs, k)
    ensures var j := if i + k < |xs| then i + k else |xs|;
      && (i + k < |xs| ==> (done + [xs[i..j]]) + Chunks(xs[i + k..], k) == Chunks(xs, k))
      && (i + k >= |xs| ==> done + [xs[i..j]] == Chunks(xs, k))
  {
    var j := if i + k < |xs| then i + k else |xs|;
    ChunksAt(xs, k, i);
    assert done + ([xs[i..j]] + Chunks(xs[j..], k)) == (done + [xs[i..j]]) + Chunks(xs[j..], k);
    if i + k >= |xs| {
      assert xs[j..] == [];
    }
  }

  /**
   * display_history: the numbers from last to first, coloured, joined by single
   * spaces; with a row width (0 stands for Python's None) they are cut into rows
   * of that many numbers, joined by "<br>".
   */
  method DisplayHistory(numbers: seq<int>, color: int -> string, perRow: nat) returns (s: string)
    ensures perRow == 0 ==> s == JoinWith(Render(color, Reverse(numbers)), " ")
    ensures perRow > 0 ==> s == JoinWith(Rows(color, Chunks(Reverse(numbers), perRow)), "<br>")
  {
    var rev := Reverse(numbers);
    if perRow > 0 {
      var rows: seq<string> := [];
      ghost var done: seq<seq<int>> := [];
      var i := 0;
      while i < |rev|
        invariant i < |rev| ==> done + Chunks(rev[i..], perRow) == Chunks(rev, perRow)
        invariant i >= |rev| ==> done == Chunks(rev, perRow)
        invariant rows == Rows(color, done)
      {
        var j := if i + perRow < |rev| then i + perRow else |rev|;
        ChunkStep(rev, perRow, i, done);
        RowsSnoc(color, done, rev[i..j]);
        var row := Row(color, rev[i..j]);
        rows := rows + [row];
        done := done + [rev[i..j]];
        i := i + perRow;
      }
      s := JoinWith(rows, "<br>");
    } else {
      s := JoinWith(Render(color, rev), " ");
    }
  }

  /** The dozen metrics and the zeros together count every logged spin once. */
  lemma DozenMetrics(numbers: seq<int>)
    requires forall i :: 0 <= i < |numbers| ==> IsSpin(numbers[i])
    ensures DozenCount(numbers, 1, 12) + DozenCount(numbers, 13, 24) + DozenCount(numbers, 25, 36)
            == |numbers| - DozenCount(numbers, 0, 0)
  {
    DozensPartition(numbers);
  }

  /** The number buttons of main: rows of up to 12 starting at 0, 12, 24 and 36. */
  method ButtonNumbers() returns (nums: seq<int>)
    ensures nums == Upto(37)
  {
    nums := [];
    var start := 0;
    while start < 37
      invariant 0 <= start <= 48 && start % 12 == 0
      invariant nums == Upto(if start < 37 then start else 37)
    {
      var cols := if 12 < 37 - start then 12 else 37 - start;
      var i := 0;
      while i < cols
        invariant 0 <= i <= cols
        invariant nums == Upto(start + i)
      {
        var num := start + i;
        if num > 36 {
          break;
        }
        nums := nums + [num];
        i := i + 1;
      }
      start := start + 12;
    }
  }
}
