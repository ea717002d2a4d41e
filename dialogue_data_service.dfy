/**
 * `DialogueDataService.ParseCSV`: the CR/LF-tolerant parser. The text is cut
 * at every CR and LF with empty entries dropped; the first remaining line is
 * the header, and every later line goes through the shared row rule.
 */
module DialogueDataService {
  import opened Optional
  import opened Text
  import opened DialogueRecord
  import opened CsvRows

  /** At most one row per non-empty line after the header, in line order. */
  method ParseCsv(csv: string) returns (result: seq<DialogueData>)
    ensures result == ServiceRows(csv)
    ensures |NonEmptyLines(csv)| <= 1 ==> result == []
    ensures |NonEmptyLines(csv)| > 1 ==> |result| <= |NonEmptyLines(csv)| - 1
  {
    var lines := NonEmptyLines(csv);
    result := [];
    if lines != [] {
      result := RowsAfterHeader(lines);
    }
  }

  /** The parsing loop over the split lines: line 0 is the header, every later line goes through the row rule. */
  method RowsAfterHeader(lines: seq<string>) returns (result: seq<DialogueData>)
    requires lines != []
    ensures result == Collect(lines[1..], LineRow)
  {
    result := [];
    var i := 1;
    while i < |lines|
      invariant 1 <= i <= |lines|
      invariant result == Collect(lines[1..i], LineRow)
    {
      CollectStep(lines, i, LineRow);
      var row := ParseLine(lines[i]);
      result := AddRow(result, row);
      i := i + 1;
    }
    assert lines[1..i] == lines[1..];
  }

  /** Adds the row a line gave to the list, if it gave one. */
  method AddRow(rows: seq<DialogueData>, row: Option<DialogueData>) returns (result: seq<DialogueData>)
    ensures result == rows + Kept(row)
  {
    result := rows;
    if row.Some? {
      result := result + [row.value];
    }
  }
}
