/** The reshaping half of DataReader.cs: how a line's delimiter is chosen,
    the delimiter's text, the column transpose of a table of rows, and the
    fan-out of rows into one series per dependent column. Reading the file
    and parsing numbers are not part of this model; the table arrives as
    already-read rows. */
module DataReader {
  import opened Points
  import opened Series

  datatype Delimiter = Tab | Space | Comma | Unknown

  /** A table as `ReadFile` returns it: one row of numbers per data line. */
  type Table = seq<seq<real>>

  // ---------------------------------------------------------------------
  // Delimiters
  // ---------------------------------------------------------------------

  /** `GetDelimiter(line)`: a tab wins over a space, a space over a comma,
      and a comma is only recognised next to a decimal point. */
  function GetDelimiter(line: string): (d: Delimiter)
    ensures d == Tab <==> '\t' in line
    ensures d == Space <==> '\t' !in line && ' ' in line
    ensures d == Comma <==> '\t' !in line && ' ' !in line && '.' in line && ',' in line
    ensures d == Unknown <==> '\t' !in line && ' ' !in line && !('.' in line && ',' in line)
  {
    if '\t' in line then Tab
    else if ' ' in line then Space
    else if '.' in line && ',' in line then Comma
    else Unknown
  }

  /** `DelimiterString(delimiter)`: the separator text; any other value
      falls back to the tab's. */
  function DelimiterString(d: Delimiter): (s: string)
    ensures |s| == 1
    ensures d.Unknown? ==> s == DelimiterString(Tab)
    decreases if d.Unknown? then 1 else 0
  {
    match d
    case Tab => "\t"
    case Space => " "
    case Comma => ","
    case Unknown => DelimiterString(Tab)
  }

  /** A recognised delimiter occurs in the line it was chosen for, so the
      split that follows always has it to cut on. */
  lemma ChosenDelimiterOccurs(line: string)
    requires GetDelimiter(line) != Unknown
    ensures DelimiterString(GetDelimiter(line))[0] in line
  {
  }

  /** The three separators are the tab, the space and the comma. Classifying
      a delimiter's own text gives the delimiter back for the tab and the
      space; a lone comma has no decimal point beside it and is not
      recognised, and the fallback text is the tab's. */
  lemma DelimiterStringClassified(d: Delimiter)
    ensures DelimiterString(Tab) == "\t" && DelimiterString(Space) == " " && DelimiterString(Comma) == ","
    ensures d in {Tab, Space} ==> GetDelimiter(DelimiterString(d)) == d
    ensures d == Comma ==> GetDelimiter(DelimiterString(d)) == Unknown
    ensures d == Unknown ==> GetDelimiter(DelimiterString(d)) == Tab
  {
    assert DelimiterString(Tab) == "\t";
    assert DelimiterString(Space)[0] == ' ';
    assert DelimiterString(Comma)[0] == ',';
  }

  // ---------------------------------------------------------------------
  // Columns and the transpose
  // ---------------------------------------------------------------------

  /** Every row has an entry at `column`. */
  ghost predicate HasColumn(data: Table, column: int) {
    0 <= column && forall i :: 0 <= i < |data| ==> column < |data[i]|
  }

  /** Column `column` of the table, top to bottom. */
  function Column(data: Table, column: int): (c: seq<real>)
    requires HasColumn(data, column)
    ensures |c| == |data|
  {
    seq(|data|, i requires 0 <= i < |data| => data[i][column])
  }

  /** The table read column-wise: one row per entry of the first row. */
  function Transpose(data: Table): (m: Table)
    requires |data| > 0
    requires forall i :: 0 <= i < |data| ==> |data[0]| <= |data[i]|
    ensures |m| == |data[0]|
    ensures forall k :: 0 <= k < |m| ==> |m[k]| == |data|
  {
    seq(|data[0]|, k requires 0 <= k < |data[0]| => Column(data, k))
  }

  /** `GetColumn(column)`: an array of `data.Count` entries filled from
      each row's `column`-th entry. */
  method GetColumn(data: Table, column: int) returns (c: seq<real>)
    requires HasColumn(data, column)
    ensures |c| == |data|
    ensures forall i :: 0 <= i < |data| ==> c[i] == data[i][column]
    ensures c == Column(data, column)
  {
    c := [];
    var i := 0;
    while i < |data|
      invariant 0 <= i <= |data|
      invariant |c| == i
      invariant forall k :: 0 <= k < i ==> c[k] == data[k][column]
    {
      c := c + [data[i][column]];
      i := i + 1;
    }
  }

  /** `ToMatrix()`: as many rows as the first data row has entries, row `i`
      being column `i` of the table. `data[0]` throws on an empty list and
      a shorter later row throws in `GetColumn`. */
  method ToMatrix(data: Table) returns (m: Table)
    requires |data| > 0
    requires forall i :: 0 <= i < |data| ==> |data[0]| <= |data[i]|
    ensures |m| == |data[0]|
    ensures forall i :: 0 <= i < |m| ==> |m[i]| == |data|
    ensures forall i, j :: 0 <= i < |m| && 0 <= j < |data| ==> m[i][j] == data[j][i]
    ensures m == Transpose(data)
  {
    var columns := |data[0]|;
    m := [];
    var i := 0;
    while i < columns
      invariant 0 <= i <= columns
      invariant |m| == i
      invariant forall k :: 0 <= k < i ==> m[k] == Column(data, k)
    {
      var c := GetColumn(data, i);
      m := m + [c];
      i := i + 1;
    }
  }

  /** Every row has the first row's length. */
  ghost predicate Rectangular(data: Table) {
    |data| > 0 && forall i :: 0 <= i < |data| ==> |data[i]| == |data[0]|
  }

  /** Transposing a rectangular table with at least one column twice gives
      the table back. */
  lemma TransposeInvolution(data: Table)
    requires Rectangular(data) && |data[0]| > 0
    ensures Transpose(Transpose(data)) == data
  {
    var m := Transpose(data);
    var mm := Transpose(m);
    assert |mm| == |data|;
    forall j | 0 <= j < |data| ensures mm[j] == data[j] {
      assert |mm[j]| == |data[j]|;
      forall k | 0 <= k < |data[j]| ensures mm[j][k] == data[j][k] {
        assert mm[j][k] == m[k][j];
      }
    }
  }

  // ---------------------------------------------------------------------
  // Fan-out of rows into series
  // ---------------------------------------------------------------------

  /** The series for dependent column `n`: the first column against column
      `n`, one point per row, in row order. */
  function ColumnSeries(data: Table, n: int): (s: DataSeries)
    requires HasColumn(data, 0) && HasColumn(data, n)
    ensures s.name == "" && |s.points| == |data|
  {
    DataSeries("", seq(|data|, i requires 0 <= i < |data| => NewDataPoint(data[i][0], data[i][n])))
  }

  /** One series per entry of the first row after the first. */
  function FanOutSeries(data: Table): (r: seq<DataSeries>)
    requires |data| > 0
    requires forall i :: 0 <= i < |data| ==> |data[0]| <= |data[i]|
    ensures |r| == if |data[0]| == 0 then 0 else |data[0]| - 1
  {
    if |data[0]| == 0 then []
    else seq(|data[0]| - 1, k requires 0 <= k < |data[0]| - 1 => ColumnSeries(data, k + 1))
  }

  /** The fan-out in `ReadDataSeries`: `data[0].Skip(1)` new series, then for
      every row and every dependent column `n` the point
      `(row[0], row[n])` is appended to series `n - 1`. */
  method FanOut(data: Table) returns (r: seq<DataSeries>)
    requires |data| > 0
    requires forall i :: 0 <= i < |data| ==> |data[0]| <= |data[i]|
    ensures |r| == if |data[0]| == 0 then 0 else |data[0]| - 1
    ensures forall k :: 0 <= k < |r| ==> r[k].name == "" && |r[k].points| == |data|
    ensures forall k, i :: 0 <= k < |r| && 0 <= i < |data| ==>
              r[k].points[i].x == data[i][0] && r[k].points[i].y == data[i][k + 1] && !HasErrors(r[k].points[i])
    ensures r == FanOutSeries(data)
  {
    var count := if |data[0]| == 0 then 0 else |data[0]| - 1;
    r := seq(count, _ => NewSeries);
    var i := 0;
    while i < |data|
      invariant 0 <= i <= |data|
      invariant |r| == count
      invariant forall k :: 0 <= k < count ==> r[k].name == "" && |r[k].points| == i
      invariant forall k, j :: 0 <= k < count && 0 <= j < i ==> r[k].points[j] == NewDataPoint(data[j][0], data[j][k + 1])
    {
      var n := 1;
      while n < |data[0]|
        invariant 1 <= n <= |data[0]| || (n == 1 && |data[0]| == 0)
        invariant |r| == count
        invariant forall k :: 0 <= k < count ==> r[k].name == ""
        invariant forall k :: 0 <= k < count ==> |r[k].points| == if k < n - 1 then i + 1 else i
        invariant forall k, j :: 0 <= k < count && 0 <= j < |r[k].points| ==> r[k].points[j] == NewDataPoint(data[j][0], data[j][k + 1])
      {
        r := r[n - 1 := AddPoint(r[n - 1], data[i][0], data[i][n])];
        n := n + 1;
      }
      i := i + 1;
    }
    assert forall k :: 0 <= k < count ==> r[k] == ColumnSeries(data, k + 1);
  }

  /** Series `k` plots column 0 against column `k + 1`: its X values are
      the first row of the transpose and its Y values row `k + 1`. */
  lemma FanOutMatchesTranspose(data: Table, k: int)
    requires |data| > 0
    requires forall i :: 0 <= i < |data| ==> |data[0]| <= |data[i]|
    requires 0 <= k < |FanOutSeries(data)|
    ensures Xs(FanOutSeries(data)[k].points) == Transpose(data)[0]
    ensures Ys(FanOutSeries(data)[k].points) == Transpose(data)[k + 1]
  {
  }
}
