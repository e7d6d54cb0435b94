/**
 * The spreadsheet flattener: every cell of a sheet (read as strings) is
 * turned into the numbers it holds, and the non-empty rows are concatenated
 * row by row into one list and kept as one list per row.
 */
module Excel {
  import opened Seqs
  import opened Text

  /** What extract_and_process_numbers returns: a list of number strings, an int, or the cell itself. */
  datatype Extracted = Tokens(list: seq<string>) | Value(n: int) | Cell(text: string)

  /** An entry of the concatenated lists: a string or an int. */
  datatype Item = Str(s: string) | Int(n: int)

  /** The whitespace-separated tokens of a cell that are all digits, in order. */
  function DigitTokens(ts: seq<string>): (r: seq<string>)
    ensures forall k :: 0 <= k < |r| ==> AllDigits(r[k])
    ensures |r| <= |ts|
  {
    if ts == [] then []
    else DigitTokens(ts[..|ts| - 1]) + (if AllDigits(ts[|ts| - 1]) then [ts[|ts| - 1]] else [])
  }

  /** The tokens rewritten as str(int(x)). */
  function Normalised(ts: seq<string>): (r: seq<string>)
    requires forall k :: 0 <= k < |ts| ==> AllDigits(ts[k])
    ensures |r| == |ts|
  {
    seq(|ts|, k requires 0 <= k < |ts| && AllDigits(ts[k]) => NatToString(DigitsValue(ts[k])))
  }

  /** Exactly the digit tokens are kept. */
  lemma {:induction false} DigitTokensMembers(ts: seq<string>, t: string)
    ensures t in DigitTokens(ts) <==> t in ts && AllDigits(t)
  {
    if ts != [] {
      assert ts == ts[..|ts| - 1] + [ts[|ts| - 1]];
      DigitTokensMembers(ts[..|ts| - 1], t);
    }
  }

  /** The digit tokens keep the order of the split. */
  lemma {:induction false} DigitTokensInOrder(ts: seq<string>)
    ensures SubsequenceOf(DigitTokens(ts), ts)
  {
    if ts != [] {
      var front, last := ts[..|ts| - 1], ts[|ts| - 1];
      DigitTokensInOrder(front);
      assert front + [last] == ts;
      if AllDigits(last) {
        SubsequenceSnoc(DigitTokens(front), front, last);
      } else {
        assert DigitTokens(ts) == DigitTokens(front);
        SubsequenceExtend(DigitTokens(front), front, last);
      }
    }
  }

  /** A repeated digit token is kept as often as it occurs; other tokens not at all. */
  lemma {:induction false} DigitTokensCount(ts: seq<string>, t: string)
    ensures multiset(DigitTokens(ts))[t] == if AllDigits(t) then multiset(ts)[t] else 0
  {
    if ts != [] {
      assert ts == ts[..|ts| - 1] + [ts[|ts| - 1]];
      DigitTokensCount(ts[..|ts| - 1], t);
    }
  }

  /**
   * extract_and_process_numbers: a cell with a space gives a list of canonical
   * digit strings, a digit cell the number it spells, and any other cell itself.
   */
  function ExtractAndProcess(cell: string): (r: Extracted)
    ensures r.Tokens? <==> ' ' in cell
    ensures r.Tokens? ==> |r.list| == |DigitTokens(Split(cell))| && forall k :: 0 <= k < |r.list| ==> Canonical(r.list[k])
    ensures r.Value? ==> r.n >= 0 && AllDigits(cell) && NatToString(r.n) == StripLeadingZeros(cell)
    ensures r.Cell? ==> r.text == cell && !AllDigits(cell)
  {
    if ' ' in cell then Tokens(Normalised(DigitTokens(Split(cell))))
    else if AllDigits(cell) then StringOfValue(cell); Value(DigitsValue(cell))
    else Cell(cell)
  }

  /**
   * A cell with a space gives its digit tokens in order, each without its
   * leading zeros and with the same value; a cell of digits alone gives its
   * value; any other cell comes back unchanged.
   */
  lemma ExtractCases(cell: string)
    ensures ' ' in cell ==>
      var ts := DigitTokens(Split(cell));
      var r := ExtractAndProcess(cell);
      && r.Tokens? && |r.list| == |ts|
      && forall k :: 0 <= k < |ts| ==>
           r.list[k] == StripLeadingZeros(ts[k]) && Canonical(r.list[k]) && DigitsValue(r.list[k]) == DigitsValue(ts[k])
    ensures ' ' !in cell && AllDigits(cell) ==> ExtractAndProcess(cell) == Value(DigitsValue(cell))
    ensures ' ' !in cell && !AllDigits(cell) ==> ExtractAndProcess(cell) == Cell(cell)
  {
    if ' ' in cell {
      var ts := DigitTokens(Split(cell));
      forall k | 0 <= k < |ts|
        ensures NatToString(DigitsValue(ts[k])) == StripLeadingZeros(ts[k])
        ensures DigitsValue(NatToString(DigitsValue(ts[k]))) == DigitsValue(ts[k])
      {
        StringOfValue(ts[k]);
        ValueOfString(DigitsValue(ts[k]));
      }
    }
  }

  /** The entries one cell contributes: its tokens, its int, or itself unless it is "nan". */
  function CellItems(e: Extracted): seq<Item>
  {
    match e
    case Tokens(list) => seq(|list|, k requires 0 <= k < |list| => Str(list[k]))
    case Value(n) => [Int(n)]
    case Cell(text) => if text == "nan" then [] else [Str(text)]
  }

  /** The entries of one row, cell after cell, for a given cell extractor. */
  function RowItems(extract: string -> Extracted, row: seq<string>): seq<Item>
  {
    if row == [] then [] else RowItems(extract, row[..|row| - 1]) + CellItems(extract(row[|row| - 1]))
  }

  /** A row whose every value is the string "nan" (an empty sheet cell read as a string). */
  predicate AllNan(row: seq<string>)
  {
    forall k :: 0 <= k < |row| ==> row[k] == "nan"
  }

  /** The per-row lists of the rows that are not all "nan", in row order. */
  function Matrix(extract: string -> Extracted, grid: seq<seq<string>>): (m: seq<seq<Item>>)
    ensures |m| <= |grid|
  {
    if grid == [] then []
    else
      Matrix(extract, grid[..|grid| - 1])
      + (if AllNan(grid[|grid| - 1]) then [] else [RowItems(extract, grid[|grid| - 1])])
  }

  /** A "nan" cell contributes nothing. */
  lemma NanCellEmpty()
    ensures CellItems(ExtractAndProcess("nan")) == []
  {
    assert "nan"[0] == 'n' && "nan"[1] == 'a' && "nan"[2] == 'n';
    assert !AllDigits("nan") by {
      assert !IsDigit("nan"[0]);
    }
  }

  /** A row that is all "nan" contributes no entry, for an extractor that keeps "nan" as it is. */
  lemma {:induction false} NanRowEmpty(extract: string -> Extracted, row: seq<string>)
    requires CellItems(extract("nan")) == []
    requires AllNan(row)
    ensures RowItems(extract, row) == []
  {
    if row != [] {
      NanRowEmpty(extract, row[..|row| - 1]);
    }
  }

  /** Skipping the all-"nan" rows changes the per-row lists but not the concatenated list. */
  lemma {:induction false} SkipKeepsConcatenation(extract: string -> Extracted, grid: seq<seq<string>>)
    requires CellItems(extract("nan")) == []
    ensures Flatten(Matrix(extract, grid)) ==
      Flatten(seq(|grid|, r requires 0 <= r < |grid| => RowItems(extract, grid[r])))
  {
    var all := seq(|grid|, r requires 0 <= r < |grid| => RowItems(extract, grid[r]));
    if grid != [] {
      var g, last := grid[..|grid| - 1], grid[|grid| - 1];
      var prev := seq(|g|, r requires 0 <= r < |g| => RowItems(extract, g[r]));
      SkipKeepsConcatenation(extract, g);
      assert all[..|all| - 1] == prev;
      if AllNan(last) {
        NanRowEmpty(extract, last);
        assert Matrix(extract, grid) == Matrix(extract, g);
        assert Flatten(all) == Flatten(prev) + [];
      } else {
        FlattenSnoc(Matrix(extract, g), RowItems(extract, last));
      }
    }
  }

  /** With the module's extractor, skipping the all-"nan" rows leaves the concatenated list as it would be. */
  lemma SkipKeepsConcatenationOfSheet(grid: seq<seq<string>>)
    ensures Flatten(Matrix(ExtractAndProcess, grid)) ==
      Flatten(seq(|grid|, r requires 0 <= r < |grid| => RowItems(ExtractAndProcess, grid[r])))
  {
    NanCellEmpty();
    SkipKeepsConcatenation(ExtractAndProcess, grid);
  }

  lemma AppendAssoc(a: seq<Item>, b: seq<Item>, c: seq<Item>)
    ensures (a + b) + c == a + (b + c)
  {
  }

  lemma FlattenSnoc(m: seq<seq<Item>>, x: seq<Item>)
    ensures Flatten(m + [x]) == Flatten(m) + x
  {
    assert (m + [x])[..|m|] == m;
  }

  lemma RowSnoc(extract: string -> Extracted, row: seq<string>, j: nat)
    requires j < |row|
    ensures RowItems(extract, row[..j + 1]) == RowItems(extract, row[..j]) + CellItems(extract(row[j]))
  {
    assert row[..j + 1][..j] == row[..j];
  }

  lemma MatrixSnoc(extract: string -> Extracted, grid: seq<seq<string>>, i: nat)
    requires i < |grid|
    ensures Matrix(extract, grid[..i + 1]) ==
      Matrix(extract, grid[..i]) + (if AllNan(grid[i]) then [] else [RowItems(extract, grid[i])])
  {
    assert grid[..i + 1][..i] == grid[..i];
  }

  /**
   * The module's row loop for a cell extractor: each row that is not all "nan"
   * is processed cell by cell; token lists extend both the running list and
   * the row's list, other results are appended unless they are the string "nan".
   */
  method ProcessRows(grid: seq<seq<string>>, extract: string -> Extracted)
    returns (concatenated: seq<Item>, matrix: seq<seq<Item>>)
    ensures matrix == Matrix(extract, grid)
    ensures concatenated == Flatten(matrix)
  {
    concatenated := [];
    matrix := [];
    for i := 0 to |grid|
      invariant matrix == Matrix(extract, grid[..i])
      invariant concatenated == Flatten(matrix)
    {
      MatrixSnoc(extract, grid, i);
      var row := grid[i];
      if AllNan(row) {
        continue;
      }
      var rowData: seq<Item> := [];
      ghost var before := concatenated;
      for j := 0 to |row|
        invariant rowData == RowItems(extract, row[..j])
        invariant concatenated == before + rowData
      {
        RowSnoc(extract, row, j);
        var numbers := extract(row[j]);
        ghost var added := CellItems(numbers);
        if numbers.Tokens? {
          var xs := CellItems(numbers);
          AppendAssoc(before, rowData, xs);
          concatenated := concatenated + xs;
          rowData := rowData + xs;
        } else {
          var x := if numbers.Value? then Int(numbers.n) else Str(numbers.text);
          if !(numbers.Cell? && numbers.text == "nan") {
            assert added == [x];
            AppendAssoc(before, rowData, [x]);
            concatenated := concatenated + [x];
            rowData := rowData + [x];
          } else {
            assert added == [];
          }
        }
      }
      assert row[..|row|] == row;
      FlattenSnoc(matrix, rowData);
      matrix := matrix + [rowData];
    }
    assert grid[..|grid|] == grid;
  }

  /** The sheet processed with extract_and_process_numbers. */
  method ProcessGrid(grid: seq<seq<string>>) returns (concatenated: seq<Item>, matrix: seq<seq<Item>>)
    ensures matrix == Matrix(ExtractAndProcess, grid)
    ensures concatenated == Flatten(matrix)
  {
    concatenated, matrix := ProcessRows(grid, ExtractAndProcess);
  }
}
