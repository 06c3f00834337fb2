/**
  The QC round trip: a record set exported to a sheet and the sheet read
  back. The import finds every column where the export put it, reads each
  row under the key the export wrote, merges the sheet into the file it was
  exported from, and an unedited sheet leaves that file as it was.
 */
module RoundTrip {
  import opened Strings
  import opened Records
  import opened Sheets
  import opened Export
  import opened Import

  /** The columns the import reads an exported sheet from. */
  const Exported := Layout(2, 4, 6, 7)

  /** The header row the export writes is found in full: key, name, text
      and QC sit in columns 2, 4, 6 and 7, where the export puts them, so
      the reader's fallback columns 1, 3, 5 and 6 are not used. */
  lemma ExportedHeaderLayout()
    ensures LayoutOf(ColumnMap(StandardColumns, HeaderRow(StandardColumns))) == Exported
  {
    var header := HeaderRow(StandardColumns);
    assert header == [Text("FilePath"), Text("blockIdx"), Text("jpName"), Text("enName"), Text("jpText"), Text("enText"), Text("QC")];
    HeaderAt(header, 2, "blockIdx", 0);
    HeaderAt(header, 4, "enName", 2);
    HeaderAt(header, 6, "enText", 4);
    HeaderAt(header, 7, "QC", 5);
  }

  /** A configured header that appears once, in column `col`, is mapped to
      that column. */
  lemma HeaderAt(header: Row, col: nat, h: string, k: nat)
    requires header == HeaderRow(StandardColumns) && 1 <= col <= |header| && k < |StandardColumns|
    requires StandardColumns[k] == h && header[col - 1] == Text(h)
    requires forall j :: 0 <= j < |header| && j != col - 1 ==> header[j] != Text(h)
    ensures h in ColumnMap(StandardColumns, header) && ColumnMap(StandardColumns, header)[h] == col
  {
    ColumnsUpToLast(StandardColumns, header, |header|, h);
  }

  /** A block's row is read under the block's own index, with its target
      name and text and an empty QC value. */
  lemma BlockRowRead(stem: string, b: Block)
    ensures RowKeyOf(Exported, BlockRow(stem, b)) == BlockKey(b.blockIdx)
    ensures BlockUpdateOf(Exported, BlockRow(stem, b)) == BlockUpdate(b.enName, b.enText, "")
  {
    assert CellAt(BlockRow(stem, b), Exported.key) == Number(b.blockIdx);
    RowKeyOfNumber(b.blockIdx);
  }

  /** A choice's row is read under the key the merge looks that choice up
      by, with its target text and an empty QC value. */
  lemma ChoiceRowRead(stem: string, blockIdx: int, c: nat, ch: Choice)
    ensures RowKeyOf(Exported, ChoiceRow(stem, blockIdx, c, ch)) == ChoiceKeyed(ChoiceKey(blockIdx, c))
    ensures ChoiceUpdateOf(Exported, ChoiceRow(stem, blockIdx, c, ch)) == ChoiceUpdate(ch.enText, "")
  {
    assert CellAt(ChoiceRow(stem, blockIdx, c, ch), Exported.key) == Text(ChoiceKey(blockIdx, c));
    RowKeyOfChoiceKey(blockIdx, c);
  }

  /** The reader as written skips the row the export writes for block 0,
      although that row names block 0: a QC edit to block 0 is never
      imported. */
  lemma BlockZeroRowSkippedAsWritten(stem: string, b: Block)
    requires b.blockIdx == 0
    ensures RowKeyAsWritten(CellAt(BlockRow(stem, b), Exported.key)) == NoKey
    ensures RowKeyOf(Exported, BlockRow(stem, b)) == BlockKey(0)
  {
    BlockRowRead(stem, b);
  }

  /** No two blocks share an index. */
  predicate UniqueIndices(bs: seq<Block>) {
    forall i, j :: 0 <= i < j < |bs| ==> bs[i].blockIdx != bs[j].blockIdx
  }

  /** A target text that the merge's stripping leaves as it is: blank, or
      without surrounding blanks. */
  predicate Settled(s: string) {
    Strip(s) == [] || Strip(s) == s
  }

  predicate SettledBlock(b: Block) {
    && Settled(b.enName) && Settled(b.enText)
    && forall c :: 0 <= c < |b.choices| ==> Settled(b.choices[c].enText)
  }

  /** With unique block indices, the rows of an exported record set give
      each block the update holding its own target name and text. */
  lemma ExportedBlockUpdate(stem: string, bs: seq<Block>, i: nat)
    requires UniqueIndices(bs) && i < |bs|
    ensures var u := ReadRows(Exported, DataRows(stem, bs));
      bs[i].blockIdx in u.blocks && u.blocks[bs[i].blockIdx] == BlockUpdate(bs[i].enName, bs[i].enText, "")
  {
    var rows := DataRows(stem, bs);
    var u := ReadRows(Exported, rows);
    var idx := bs[i].blockIdx;
    DataRowsLayout(stem, bs, i);
    BlockRowRead(stem, bs[i]);
    ReadRowsBlocks(Exported, rows, idx);
    assert RowKeyOf(Exported, rows[RowOf(bs, i)]) == BlockKey(idx);
    var r :| LastWith(Exported, rows, BlockKey(idx), r) && u.blocks[idx] == BlockUpdateOf(Exported, rows[r]);
    DataRowsOrigin(stem, bs, r);
    var j :| 0 <= j < |bs| && RowFrom(stem, bs[j], rows[r]);
    if rows[r] == BlockRow(stem, bs[j]) {
      BlockRowRead(stem, bs[j]);
      assert bs[j].blockIdx == idx;
      assert j == i;
    } else {
      var c :| 0 <= c < |bs[j].choices| && rows[r] == ChoiceRow(stem, bs[j].blockIdx, c, bs[j].choices[c]);
      ChoiceRowRead(stem, bs[j].blockIdx, c, bs[j].choices[c]);
      assert false;
    }
  }

  /** With unique block indices, the rows of an exported record set give
      each choice the update holding its own target text. */
  lemma ExportedChoiceUpdate(stem: string, bs: seq<Block>, i: nat, c: nat)
    requires UniqueIndices(bs) && i < |bs| && c < |bs[i].choices|
    ensures var u := ReadRows(Exported, DataRows(stem, bs));
      var k := ChoiceKey(bs[i].blockIdx, c);
      k in u.choices && u.choices[k] == ChoiceUpdate(bs[i].choices[c].enText, "")
  {
    var rows := DataRows(stem, bs);
    var u := ReadRows(Exported, rows);
    var k := ChoiceKey(bs[i].blockIdx, c);
    DataRowsLayout(stem, bs, i);
    ChoiceRowRead(stem, bs[i].blockIdx, c, bs[i].choices[c]);
    ReadRowsChoices(Exported, rows, k);
    assert RowKeyOf(Exported, rows[RowOf(bs, i) + 1 + c]) == ChoiceKeyed(k);
    var r :| LastWith(Exported, rows, ChoiceKeyed(k), r) && u.choices[k] == ChoiceUpdateOf(Exported, rows[r]);
    DataRowsOrigin(stem, bs, r);
    var j :| 0 <= j < |bs| && RowFrom(stem, bs[j], rows[r]);
    if rows[r] == BlockRow(stem, bs[j]) {
      BlockRowRead(stem, bs[j]);
      assert false;
    } else {
      var c' :| 0 <= c' < |bs[j].choices| && rows[r] == ChoiceRow(stem, bs[j].blockIdx, c', bs[j].choices[c']);
      ChoiceRowRead(stem, bs[j].blockIdx, c', bs[j].choices[c']);
      ChoiceKeyInjective(bs[j].blockIdx, c', bs[i].blockIdx, c);
      assert j == i && c' == c;
    }
  }

  /** A settled block whose update and choice updates hold its own target
      texts is merged into itself. */
  lemma ApplyBlockOwnTexts(b: Block, u: Updates)
    requires SettledBlock(b)
    requires b.blockIdx in u.blocks && u.blocks[b.blockIdx] == BlockUpdate(b.enName, b.enText, "")
    requires forall c :: 0 <= c < |b.choices| ==>
      ChoiceKey(b.blockIdx, c) in u.choices && u.choices[ChoiceKey(b.blockIdx, c)] == ChoiceUpdate(b.choices[c].enText, "")
    ensures ApplyBlock(b, u).0 == b
  {
    var cs := ApplyChoices(b.blockIdx, b.choices, u).0;
    forall c | 0 <= c < |b.choices| ensures cs[c] == b.choices[c] {
      ApplyChoicesIndex(b.blockIdx, b.choices, u, c);
    }
    assert cs == b.choices;
  }

  /** Exporting a record set and importing the sheet unedited leaves it as
      it is and counts no update, when block indices are unique and every
      target text is settled. */
  lemma {:induction false} ExportImportIdentity(stem: string, sep: char, bs: seq<Block>)
    requires UniqueIndices(bs)
    requires forall i :: 0 <= i < |bs| ==> SettledBlock(bs[i])
    ensures ApplyAll(bs, ReadSheet(StandardColumns, ExportSheet(stem, sep, StandardColumns, bs))) == (bs, 0)
  {
    var u := ReadSheet(StandardColumns, ExportSheet(stem, sep, StandardColumns, bs));
    ExportedHeaderLayout();
    assert u == ReadRows(Exported, DataRows(stem, bs));
    var r := ApplyAll(bs, u);
    forall i | 0 <= i < |bs| ensures r.0[i] == bs[i] {
      ApplyAllIndex(bs, u, i);
      ExportedBlockUpdate(stem, bs, i);
      forall c | 0 <= c < |bs[i].choices|
        ensures ChoiceKey(bs[i].blockIdx, c) in u.choices
        ensures u.choices[ChoiceKey(bs[i].blockIdx, c)] == ChoiceUpdate(bs[i].choices[c].enText, "")
      {
        ExportedChoiceUpdate(stem, bs, i, c);
      }
      ApplyBlockOwnTexts(bs[i], u);
    }
    assert r.0 == bs;
    ApplyAllCount(bs, u);
    NoChanges(bs);
  }

  /** The exported sheet names its file in the FilePath cell of its first
      data row, so the import merges it into that very file, read and
      written, whatever its sheet name became. */
  lemma ExportedSheetResolves(stem: string, sep: char, bs: seq<Block>, existing: set<string>, listed: seq<string>)
    requires stem != [] && bs != [] && stem in existing
    ensures var sheet := ExportSheet(stem, sep, StandardColumns, bs);
      Resolve(sheet.title, FieldText(FilePathCell(sheet)), existing, listed, sep) == Target(stem, stem)
  {
    var sheet := ExportSheet(stem, sep, StandardColumns, bs);
    DataRowsLayout(stem, bs, 0);
    assert bs[..0] == [];
    assert sheet.body[0] == BlockRow(stem, bs[0]);
  }

  /** Re-importing an unedited export of one file changes no file. */
  lemma ReimportChangesNothing(fs: Files, listed: seq<string>, sep: char, stem: string)
    requires stem in fs && stem != [] && fs[stem] != []
    requires UniqueIndices(fs[stem])
    requires forall i :: 0 <= i < |fs[stem]| ==> SettledBlock(fs[stem][i])
    ensures ImportSheet(fs, listed, StandardColumns, sep, ExportSheet(stem, sep, StandardColumns, fs[stem])) == (fs, 0)
  {
    ExportedSheetResolves(stem, sep, fs[stem], fs.Keys, listed);
    ExportImportIdentity(stem, sep, fs[stem]);
    assert fs[stem := fs[stem]] == fs;
  }
}
