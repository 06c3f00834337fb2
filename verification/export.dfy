/**
  The export of one record set to a QC sheet: a header row, then one row
  per block, each followed at once by one row per choice of that block.
  Every data row starts with the file's extension-less relative path and
  ends with an empty QC cell.
 */
module Export {
  import opened Strings
  import opened Records
  import opened Sheets

  /** The configured columns of the QC sheet, in the order the data rows
      fill them after the FilePath column. */
  const StandardColumns: seq<string> := ["blockIdx", "jpName", "enName", "jpText", "enText", "QC"]

  /** The number of cells a data row fills. */
  const RowWidth := 7

  /** Row 1: `FilePath` followed by the configured columns. */
  function HeaderRow(columns: seq<string>): Row {
    [Text("FilePath")] + seq(|columns|, i requires 0 <= i < |columns| => Text(columns[i]))
  }

  /** A block's row: the path, then the block index, both names and both
      texts as they are, then an empty QC cell. */
  function BlockRow(stem: string, b: Block): Row {
    [Text(stem), Number(b.blockIdx), Text(b.jpName), Text(b.enName), Text(b.jpText), Text(b.enText), Text("")]
  }

  /** The row of choice `c` (from 0) of the block with index `blockIdx`: its
      key, "[Choice]" in both name columns, its two texts and an empty QC
      cell. */
  function ChoiceRow(stem: string, blockIdx: int, c: nat, ch: Choice): Row {
    [Text(stem), Text(ChoiceKey(blockIdx, c)), Text("[Choice]"), Text("[Choice]"), Text(ch.jpText), Text(ch.enText), Text("")]
  }

  /** The rows of the first `n` choices of `b`. */
  function ChoiceRows(stem: string, b: Block, n: nat): (rows: seq<Row>)
    requires n <= |b.choices|
  {
    seq(n, c requires 0 <= c < n => ChoiceRow(stem, b.blockIdx, c, b.choices[c]))
  }

  /** A block's row followed by its choices' rows. */
  function BlockRows(stem: string, b: Block): seq<Row> {
    [BlockRow(stem, b)] + ChoiceRows(stem, b, |b.choices|)
  }

  /** Every data row of the sheet, from row 2 on. */
  function DataRows(stem: string, bs: seq<Block>): seq<Row> {
    if bs == [] then [] else DataRows(stem, bs[..|bs| - 1]) + BlockRows(stem, bs[|bs| - 1])
  }

  /** The sheet of the file whose extension-less relative path is `stem`. */
  function ExportSheet(stem: string, sep: char, columns: seq<string>, bs: seq<Block>): Sheet {
    Sheet(SheetName(stem, sep), HeaderRow(columns), DataRows(stem, bs))
  }

  /** The row loop of `add_json_to_workbook`: a row per block, then a row
      per choice of it; `rowIdx` is the next row to write, from row 2, so
      the rows added number `rowIdx - 2`. */
  method WriteRows(stem: string, bs: seq<Block>) returns (rows: seq<Row>, rowIdx: nat)
    ensures rows == DataRows(stem, bs)
    ensures rowIdx == 2 + |bs| + TotalChoices(bs)
  {
    rows, rowIdx := [], 2;
    for i := 0 to |bs|
      invariant rows == DataRows(stem, bs[..i])
      invariant rowIdx == 2 + |rows|
    {
      assert bs[..i + 1][..i] == bs[..i];
      rows := rows + [BlockRow(stem, bs[i])];
      rowIdx := rowIdx + 1;
      rows, rowIdx := WriteChoiceRows(stem, bs[i], rows, rowIdx);
    }
    assert bs[..|bs|] == bs;
    DataRowsCount(stem, bs);
  }

  /** The inner loop: one row per choice of `block`, appended in order. */
  method WriteChoiceRows(stem: string, block: Block, rows0: seq<Row>, rowIdx0: nat) returns (rows: seq<Row>, rowIdx: nat)
    ensures rows == rows0 + ChoiceRows(stem, block, |block.choices|)
    ensures rowIdx == rowIdx0 + |block.choices|
  {
    rows, rowIdx := rows0, rowIdx0;
    for c := 0 to |block.choices|
      invariant rows == rows0 + ChoiceRows(stem, block, c)
      invariant rowIdx == rowIdx0 + c
    {
      assert ChoiceRows(stem, block, c + 1) == ChoiceRows(stem, block, c) + [ChoiceRow(stem, block.blockIdx, c, block.choices[c])];
      rows := rows + [ChoiceRow(stem, block.blockIdx, c, block.choices[c])];
      rowIdx := rowIdx + 1;
    }
  }

  /** There is one row per block and one per choice. */
  lemma {:induction false} DataRowsCount(stem: string, bs: seq<Block>)
    ensures |DataRows(stem, bs)| == |bs| + TotalChoices(bs)
  {
    if bs != [] {
      DataRowsCount(stem, bs[..|bs| - 1]);
    }
  }

  /** The row of block `i`, counted from 0 among the data rows: the rows of
      the blocks before it and of their choices come first. */
  function RowOf(bs: seq<Block>, i: nat): nat
    requires i <= |bs|
  {
    i + TotalChoices(bs[..i])
  }

  /** Document order: block `i`'s row is at `RowOf(bs, i)` and its
      choices' rows follow it at once, in order. */
  lemma {:induction false} DataRowsLayout(stem: string, bs: seq<Block>, i: nat)
    requires i < |bs|
    ensures var rows := DataRows(stem, bs);
      && RowOf(bs, i) + |bs[i].choices| < |rows|
      && rows[RowOf(bs, i)] == BlockRow(stem, bs[i])
      && forall c :: 0 <= c < |bs[i].choices| ==>
           rows[RowOf(bs, i) + 1 + c] == ChoiceRow(stem, bs[i].blockIdx, c, bs[i].choices[c])
  {
    var n := |bs| - 1;
    var init := bs[..n];
    DataRowsCount(stem, init);
    DataRowsCount(stem, bs);
    assert DataRows(stem, bs) == DataRows(stem, init) + BlockRows(stem, bs[n]);
    if i < n {
      DataRowsLayout(stem, init, i);
      assert init[..i] == bs[..i];
    } else {
      assert bs[..i] == init;
    }
  }

  /** `row` is the row of block `b` or of one of its choices. */
  predicate RowFrom(stem: string, b: Block, row: Row) {
    || row == BlockRow(stem, b)
    || exists c :: 0 <= c < |b.choices| && row == ChoiceRow(stem, b.blockIdx, c, b.choices[c])
  }

  /** Every data row is the row of some block or of one of its choices. */
  lemma {:induction false} DataRowsOrigin(stem: string, bs: seq<Block>, k: nat)
    requires k < |DataRows(stem, bs)|
    ensures exists j :: 0 <= j < |bs| && RowFrom(stem, bs[j], DataRows(stem, bs)[k])
  {
    var n := |bs| - 1;
    var init := bs[..n];
    var front := DataRows(stem, init);
    assert DataRows(stem, bs) == front + BlockRows(stem, bs[n]);
    if k < |front| {
      DataRowsOrigin(stem, init, k);
      var j :| 0 <= j < |init| && RowFrom(stem, init[j], front[k]);
      assert init[j] == bs[j];
    } else if k == |front| {
      assert RowFrom(stem, bs[n], DataRows(stem, bs)[k]);
    } else {
      var c := k - |front| - 1;
      assert DataRows(stem, bs)[k] == ChoiceRow(stem, bs[n].blockIdx, c, bs[n].choices[c]);
      assert RowFrom(stem, bs[n], DataRows(stem, bs)[k]);
    }
  }

  /** Every data row is seven cells wide, starts with the path and ends
      with an empty QC cell. */
  lemma {:induction false} DataRowsShape(stem: string, bs: seq<Block>)
    ensures forall k :: 0 <= k < |DataRows(stem, bs)| ==>
      var row := DataRows(stem, bs)[k];
      |row| == RowWidth && row[0] == Text(stem) && row[RowWidth - 1] == Text("")
  {
    if bs != [] {
      DataRowsShape(stem, bs[..|bs| - 1]);
    }
  }
}
