/**
  The spreadsheet side of the QC round trip: the cell values a sheet holds
  once read back, its rows, and the name a record set's sheet gets.
 */
module Sheets {
  import opened Strings

  /** A cell value as the workbook reader returns it: nothing, a string or
      an integer. */
  datatype Cell = Empty | Text(s: string) | Number(n: int)

  /** One row; the cell of column `c` (counted from 1) is at position
      `c - 1`. */
  type Row = seq<Cell>

  /** A sheet: its title, its first row (the headers) and the rows below
      it, from row 2 on. */
  datatype Sheet = Sheet(title: string, header: Row, body: seq<Row>)

  /** `ws.cell(row, column).value`: a column past the row's last cell is
      empty. */
  function CellAt(row: Row, col: nat): Cell {
    if 1 <= col <= |row| then row[col - 1] else Empty
  }

  /** `s.replace(a, b)` for two single characters. */
  function ReplaceChar(s: string, a: char, b: char): (r: string)
    ensures |r| == |s|
    ensures forall i :: 0 <= i < |s| ==> r[i] == if s[i] == a then b else s[i]
  {
    seq(|s|, i requires 0 <= i < |s| => if s[i] == a then b else s[i])
  }

  /** The longest sheet title the workbook format accepts. */
  const MaxTitle := 31

  /** The sheet name of the file whose relative path without its extension
      is `stem`: every path separator becomes '_', and the result is cut to
      31 characters, so it is never longer than that and holds no separator
      (unless the separator is '_' itself). */
  function SheetName(stem: string, sep: char): (r: string)
    ensures |r| <= MaxTitle && |r| == Min(|stem|, MaxTitle)
    ensures forall i :: 0 <= i < |r| ==> r[i] == if stem[i] == sep then '_' else stem[i]
    ensures sep != '_' ==> sep !in r
  {
    var s := ReplaceChar(stem, sep, '_');
    if |s| <= MaxTitle then s else s[..MaxTitle]
  }

  /** The import guesses a file's path by turning every '_' of the sheet
      name back into a separator. The guess is the file exactly when its
      path is at most 31 characters long and holds no '_' of its own. */
  lemma {:induction false} GuessRecoversShortPaths(stem: string, sep: char)
    requires sep != '_'
    ensures ReplaceChar(SheetName(stem, sep), '_', sep) == stem <==> |stem| <= MaxTitle && '_' !in stem
  {
    var g := ReplaceChar(SheetName(stem, sep), '_', sep);
    if |stem| <= MaxTitle && '_' !in stem {
      assert forall i :: 0 <= i < |stem| ==> g[i] == stem[i];
    }
    if g == stem {
      assert |stem| <= MaxTitle;
      forall i | 0 <= i < |stem| ensures stem[i] != '_' {
        assert g[i] != '_';
      }
    }
  }
}
