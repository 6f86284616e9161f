/** `load_current.py`: copy the lines a board prints on its serial port
    into a CSV file. The file is opened for writing (earlier content is
    discarded), a header row is written first, and then every line read is
    stripped, skipped if nothing is left, and otherwise split at its commas
    into one row. */
module SerialLogger {
  import opened Text

  /** The header row. */
  const Header: seq<string> := ["Time (ms)", "ADC Value", "Voltage"]

  /** What one line read contributes to the file: nothing if it is blank
      once stripped, else the one row it splits into. */
  function RowOf(line: string): (rows: seq<seq<string>>)
    ensures |rows| <= 1
  {
    var s := Strip(line);
    if s == [] then [] else [Split(s, ',')]
  }

  /** The line as it is kept: stripped, and only if not blank. */
  function KeptOf(line: string): (kept: seq<string>)
    ensures |kept| == |RowOf(line)|
    ensures forall k :: 0 <= k < |kept| ==> kept[k] != []
  {
    var s := Strip(line);
    if s == [] then [] else [s]
  }

  /** The stripped lines that are not blank, in the order read. */
  function Kept(lines: seq<string>): (kept: seq<string>)
    ensures forall k :: 0 <= k < |kept| ==> kept[k] != []
  {
    if lines == [] then []
    else Kept(lines[..|lines| - 1]) + KeptOf(lines[|lines| - 1])
  }

  /** The data rows the lines yield, in the order read: at most one per
      line. */
  function DataRows(lines: seq<string>): (rows: seq<seq<string>>)
    ensures |rows| <= |lines|
  {
    if lines == [] then []
    else DataRows(lines[..|lines| - 1]) + RowOf(lines[|lines| - 1])
  }

  lemma {:induction false} RowsStep(lines: seq<string>, i: nat)
    requires i < |lines|
    ensures [Header] + DataRows(lines[..i + 1]) == [Header] + DataRows(lines[..i]) + RowOf(lines[i])
  {
    assert lines[..i + 1][..i] == lines[..i];
  }

  /** The read loop: returns everything the run writes to the file. */
  method Record(lines: seq<string>) returns (rows: seq<seq<string>>)
    ensures rows == [Header] + DataRows(lines)
  {
    rows := [Header];
    var i := 0;
    while i < |lines|
      invariant 0 <= i <= |lines|
      invariant rows == [Header] + DataRows(lines[..i])
    {
      RowsStep(lines, i);
      var line := Strip(lines[i]);
      if line != [] {
        var data := Split(line, ',');
        rows := rows + [data];
      }
      i := i + 1;
    }
    assert lines[..i] == lines;
  }

  /** Each kept line gives exactly one row, in the same order: the row is
      the line split at its commas, has one more field than the line has
      commas, and joining it with commas gives the line back. */
  lemma {:induction false} RowPerKeptLine(lines: seq<string>)
    ensures |DataRows(lines)| == |Kept(lines)|
    ensures forall k :: 0 <= k < |Kept(lines)| ==>
      && DataRows(lines)[k] == Split(Kept(lines)[k], ',')
      && Join(DataRows(lines)[k], ',') == Kept(lines)[k]
      && |DataRows(lines)[k]| == Count(Kept(lines)[k], ',') + 1
  {
    if lines != [] {
      var n := |lines| - 1;
      RowPerKeptLine(lines[..n]);
      var s := Strip(lines[n]);
      if s != [] {
        JoinSplit(s, ',');
        SplitShape(s, ',');
        var m := |Kept(lines[..n])|;
        assert Kept(lines) == Kept(lines[..n]) + [s];
        assert DataRows(lines) == DataRows(lines[..n]) + [Split(s, ',')];
        assert forall k :: 0 <= k < m ==> Kept(lines)[k] == Kept(lines[..n])[k] && DataRows(lines)[k] == DataRows(lines[..n])[k];
      }
    }
  }

  /** Reading more lines only adds rows after those already written. */
  lemma {:induction false} RowsInReadingOrder(a: seq<string>, b: seq<string>)
    ensures DataRows(a + b) == DataRows(a) + DataRows(b)
  {
    if b == [] {
      assert a + b == a;
    } else {
      var n := |b| - 1;
      assert (a + b)[..|a + b| - 1] == a + b[..n];
      RowsInReadingOrder(a, b[..n]);
    }
  }

  /** A line of nothing but whitespace (a read that timed out gives the
      empty line) adds no row; any other line adds one. */
  lemma {:induction false} BlankLinesSkipped(lines: seq<string>, line: string)
    ensures AllSpace(line) ==> DataRows(lines + [line]) == DataRows(lines)
    ensures !AllSpace(line) ==> DataRows(lines + [line]) == DataRows(lines) + [Split(Strip(line), ',')]
  {
    assert (lines + [line])[..|lines|] == lines;
    StripShape(line);
  }
}
