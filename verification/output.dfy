/** The printed form of query results: each row's cells are paired, cell
    `i` with cell `i + n/2` (the client returns all latitude cells, then all
    longitude cells), one "lat,long" line per pair, after a header that ends
    without a newline. */
module Output {
  import opened Text

  /** The cell values of one returned row, in the client's order. */
  type Cells = seq<string>

  predicate EvenRows(rows: seq<Cells>)
  {
    forall i :: 0 <= i < |rows| ==> |rows[i]| % 2 == 0
  }

  /** The pair lines of one row, without their newlines. */
  function PairLines(cells: Cells): seq<string>
    requires |cells| % 2 == 0
  {
    seq(|cells| / 2, i requires 0 <= i < |cells| / 2 => cells[i] + "," + cells[i + |cells| / 2])
  }

  /** What printing one row writes. */
  function FormatLatLongPairs(cells: Cells): string
    requires |cells| % 2 == 0
  {
    Unlines(PairLines(cells))
  }

  /** The printing loop: for each `i` below half the cell count, the first
      value, a comma, then the second value and a newline. */
  method PrintLatLongPairs(cells: Cells) returns (out: string)
    requires |cells| % 2 == 0
    ensures out == FormatLatLongPairs(cells)
  {
    var half := |cells| / 2;
    out := "";
    var i := 0;
    while i < half
      invariant 0 <= i <= half
      invariant out == Unlines(PairLines(cells)[..i])
    {
      var lines := PairLines(cells);
      UnlinesAppend(lines[..i], [lines[i]]);
      assert lines[..i + 1] == lines[..i] + [lines[i]];
      out := out + cells[i] + "," + cells[i + half] + "\n";
      i := i + 1;
    }
    assert PairLines(cells)[..half] == PairLines(cells);
  }

  /** Every pair line of every row, rows in order. */
  function AllPairLines(rows: seq<Cells>): seq<string>
    requires EvenRows(rows)
  {
    if |rows| == 0 then [] else PairLines(rows[0]) + AllPairLines(rows[1..])
  }

  /** What printing all rows of a result writes. */
  function FormatRows(rows: seq<Cells>): string
    requires EvenRows(rows)
  {
    if |rows| == 0 then "" else FormatLatLongPairs(rows[0]) + FormatRows(rows[1..])
  }

  /** What one query writes to standard output: its header, then its rows. */
  function QueryOutput(header: string, rows: seq<Cells>): string
    requires EvenRows(rows)
  {
    header + FormatRows(rows)
  }

  predicate PlainValue(v: string)
  {
    '\n' !in v && ',' !in v
  }

  predicate PlainCells(cells: Cells)
  {
    forall i :: 0 <= i < |cells| ==> PlainValue(cells[i])
  }

  /** A row of `n` cells prints `n/2` lines, and line `i`, read back at its
      comma, gives cell `i` and cell `i + n/2`, when no value holds a comma
      or newline. */
  lemma FormatLatLongPairsParses(cells: Cells)
    requires |cells| % 2 == 0
    requires PlainCells(cells)
    ensures var parts := SplitAll(FormatLatLongPairs(cells), '\n');
      && |parts| == |cells| / 2 + 1
      && parts[|parts| - 1] == ""
      && forall i :: 0 <= i < |cells| / 2 ==>
           SplitAll(parts[i], ',') == [cells[i], cells[i + |cells| / 2]]
  {
    var half := |cells| / 2;
    var lines := PairLines(cells);
    forall i | 0 <= i < half
      ensures '\n' !in lines[i]
      ensures SplitAll(lines[i], ',') == [cells[i], cells[i + half]]
    {
      SplitAtFirstSeparator(cells[i], ',', cells[i + half]);
      SplitWithoutSeparator(cells[i + half], ',');
    }
    SplitUnlines("", lines);
    assert "" + Unlines(lines) == Unlines(lines);
    if half > 0 {
      assert "" + lines[0] == lines[0];
      assert [lines[0]] + lines[1..] == lines;
    }
    var parts := SplitAll(FormatLatLongPairs(cells), '\n');
    assert parts == lines + [""];
  }

  lemma {:induction false} FormatRowsIsUnlines(rows: seq<Cells>)
    requires EvenRows(rows)
    ensures FormatRows(rows) == Unlines(AllPairLines(rows))
  {
    if |rows| > 0 {
      FormatRowsIsUnlines(rows[1..]);
      UnlinesAppend(PairLines(rows[0]), AllPairLines(rows[1..]));
    }
  }

  lemma {:induction false} AllPairLinesCount(rows: seq<Cells>)
    requires EvenRows(rows)
    ensures |AllPairLines(rows)| == CellCount(rows) / 2
  {
    if |rows| > 0 {
      AllPairLinesCount(rows[1..]);
    }
  }

  function CellCount(rows: seq<Cells>): nat
  {
    if |rows| == 0 then 0 else |rows[0]| + CellCount(rows[1..])
  }

  lemma {:induction false} AllPairLinesPlain(rows: seq<Cells>)
    requires EvenRows(rows)
    requires forall r :: 0 <= r < |rows| ==> PlainCells(rows[r])
    ensures forall i :: 0 <= i < |AllPairLines(rows)| ==> '\n' !in AllPairLines(rows)[i]
  {
    if |rows| > 0 {
      AllPairLinesPlain(rows[1..]);
      var first := PairLines(rows[0]);
      assert forall i :: 0 <= i < |first| ==> '\n' !in first[i];
    }
  }

  /** The legacy layout of a query's output: the header and the first pair
      share a line, every pair line ends with a newline, and a result of `n`
      cells in all prints `n/2` pair lines. */
  lemma QueryOutputLayout(header: string, rows: seq<Cells>)
    requires EvenRows(rows)
    requires '\n' !in header
    requires forall r :: 0 <= r < |rows| ==> PlainCells(rows[r])
    ensures var lines := AllPairLines(rows);
      && |lines| == CellCount(rows) / 2
      && (|lines| == 0 ==> SplitAll(QueryOutput(header, rows), '\n') == [header])
      && (|lines| > 0 ==>
            SplitAll(QueryOutput(header, rows), '\n') == [header + lines[0]] + lines[1..] + [""])
  {
    FormatRowsIsUnlines(rows);
    AllPairLinesCount(rows);
    AllPairLinesPlain(rows);
    SplitUnlines(header, AllPairLines(rows));
  }
}
