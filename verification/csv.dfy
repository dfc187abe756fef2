/** Rows as the CSV reader yields them: one list of cell strings per line. Both readers treat
    row 0 as a header and look at cells by position. */
module Csv {

  type Row = seq<string>

  /** The rows after the header row (row 0), which both readers skip. */
  function DataRows(rows: seq<Row>): (data: seq<Row>)
    ensures |rows| == 0 ==> data == []
    ensures |rows| > 0 ==> |data| == |rows| - 1
    ensures forall k :: 0 <= k < |data| ==> data[k] == rows[k + 1]
  {
    if |rows| == 0 then [] else rows[1..]
  }

  /** Cell `k` of `row`, with a cell the row is too short to have read as absent (""). */
  function Cell(row: Row, k: nat): string
  {
    if k < |row| then row[k] else ""
  }

  /** Whatever the header row holds, the data rows are the same. */
  lemma HeaderIgnored(h1: Row, h2: Row, data: seq<Row>)
    ensures DataRows([h1] + data) == DataRows([h2] + data) == data
  {
    assert ([h1] + data)[1..] == data;
    assert ([h2] + data)[1..] == data;
  }
}
