/**
  The QC import: a sheet's rows read into block and choice updates, the
  updates merged into a record set in place, and the choice of the file a
  sheet is merged into.
 */
module Import {
  import opened Wrappers
  import opened Strings
  import opened Records
  import opened Sheets

  // ---- cells ----

  /** Python truthiness of a cell value. */
  predicate Truthy(c: Cell) {
    match c
    case Empty => false
    case Text(s) => s != []
    case Number(n) => n != 0
  }

  /** `str(value)`. */
  function CellString(c: Cell): string {
    match c
    case Empty => "None"
    case Text(s) => s
    case Number(n) => IntToString(n)
  }

  /** `value or ''` for a name, text, QC or FilePath cell, read as text. */
  function FieldText(c: Cell): string {
    if Truthy(c) then CellString(c) else ""
  }

  // ---- the header row ----

  /** `col_map` once the first `n` header cells are seen: each configured
      header to the column (from 1) where it was seen last. */
  function ColumnsUpTo(columns: seq<string>, header: Row, n: nat): map<string, nat>
    requires n <= |header|
  {
    if n == 0 then map[]
    else
      var m := ColumnsUpTo(columns, header, n - 1);
      var cell := header[n - 1];
      if cell.Text? && cell.s in columns then m[cell.s := n] else m
  }

  function ColumnMap(columns: seq<string>, header: Row): map<string, nat> {
    ColumnsUpTo(columns, header, |header|)
  }

  /** A header is mapped exactly when it is configured and some header cell
      holds it, and then to the last column that does. */
  lemma {:induction false} ColumnsUpToLast(columns: seq<string>, header: Row, n: nat, h: string)
    requires n <= |header|
    ensures var m := ColumnsUpTo(columns, header, n);
      && (h in m <==> h in columns && exists j :: 0 <= j < n && header[j] == Text(h))
      && (h in m ==> 1 <= m[h] <= n && header[m[h] - 1] == Text(h)
                     && forall j :: m[h] <= j < n ==> header[j] != Text(h))
  {
    if n > 0 {
      ColumnsUpToLast(columns, header, n - 1, h);
    }
  }

  /** The header loop of `read_sheet_data`, over columns 1 to the last. */
  method BuildColumnMap(columns: seq<string>, header: Row) returns (m: map<string, nat>)
    ensures m == ColumnMap(columns, header)
  {
    m := map[];
    for col := 1 to |header| + 1
      invariant m == ColumnsUpTo(columns, header, col - 1)
    {
      var cell := CellAt(header, col);
      if cell.Text? && cell.s in columns {
        m := m[cell.s := col];
      }
    }
  }

  /** The columns the rows are read from. */
  datatype Layout = Layout(key: nat, name: nat, text: nat, qc: nat)

  /** `col_map.get(name, default)`. */
  function Lookup(m: map<string, nat>, name: string, default: nat): nat {
    if name in m then m[name] else default
  }

  /** Each column where its header names it, or else columns 1, 3, 5 and 6. */
  function LayoutOf(m: map<string, nat>): Layout {
    Layout(Lookup(m, "blockIdx", 1), Lookup(m, "enName", 3), Lookup(m, "enText", 5), Lookup(m, "QC", 6))
  }

  // ---- row keys ----

  /** What a row's key names: a choice, under its raw text, or a block. */
  datatype Key = NoKey | BlockKey(idx: int) | ChoiceKeyed(key: string)

  /** A key text holding "-C" names a choice; any other names a block when
      `int()` accepts it, and nothing otherwise. */
  function KeyOf(s: string): Key {
    if Occurs(s, "-C") then ChoiceKeyed(s)
    else match ParseInt(s)
      case Some(i) => BlockKey(i)
      case None => NoKey
  }

  /** The key of a row whose blockIdx cell is `c`, as the reader takes it:
      `not c` skips an empty cell and also a cell holding the number 0. */
  function RowKeyAsWritten(c: Cell): Key {
    if !Truthy(c) then NoKey else KeyOf(CellString(c))
  }

  /** The key of a row whose blockIdx cell is `c`, skipping only an empty
      cell, so that the row of block 0 is read. */
  function RowKey(c: Cell): Key {
    if c == Empty || c == Text("") then NoKey else KeyOf(CellString(c))
  }

  /** The two readings differ on exactly one cell value: the number 0. */
  lemma RowKeyAsWrittenDiffers(c: Cell)
    ensures RowKeyAsWritten(c) != RowKey(c) <==> c == Number(0)
  {
    if c == Number(0) {
      ParseIntToString(0);
      assert !Occurs("0", "-C");
    }
  }

  /** A number names the block it holds, in a cell of either kind: the
      digits of an integer hold no "-C" and parse back to it. */
  lemma {:induction false} RowKeyOfNumber(n: int)
    ensures RowKey(Number(n)) == BlockKey(n)
    ensures RowKey(Text(IntToString(n))) == BlockKey(n)
  {
    NoChoiceMarkInNumber(n);
    ParseIntToString(n);
  }

  /** The digits of an integer, and its sign, hold no "-C". */
  lemma {:induction false} NoChoiceMarkInNumber(n: int)
    ensures !Occurs(IntToString(n), "-C")
  {
    var s := IntToString(n);
    forall i | 0 <= i <= |s| - 2 ensures !OccursAt(s, "-C", i) {
      assert s[i + 1] == '-' || IsDigit(s[i + 1]);
      assert s[i..i + 2][1] == s[i + 1] != "-C"[1];
    }
  }

  /** The key written for choice `c` of block `b` is read as that very
      choice key. */
  lemma RowKeyOfChoiceKey(b: int, c: nat)
    ensures RowKey(Text(ChoiceKey(b, c))) == ChoiceKeyed(ChoiceKey(b, c))
  {
    var a := IntToString(b);
    var k := ChoiceKey(b, c);
    assert k[|a|..|a| + 2] == "-C";
    assert OccursAt(k, "-C", |a|);
  }

  // ---- reading the rows ----

  datatype BlockUpdate = BlockUpdate(enName: string, enText: string, qc: string)
  datatype ChoiceUpdate = ChoiceUpdate(enText: string, qc: string)

  /** `updates`: block updates by block index, choice updates by key. */
  datatype Updates = Updates(blocks: map<int, BlockUpdate>, choices: map<string, ChoiceUpdate>)

  function RowKeyOf(l: Layout, row: Row): Key {
    RowKey(CellAt(row, l.key))
  }

  function BlockUpdateOf(l: Layout, row: Row): BlockUpdate {
    BlockUpdate(FieldText(CellAt(row, l.name)), FieldText(CellAt(row, l.text)), FieldText(CellAt(row, l.qc)))
  }

  function ChoiceUpdateOf(l: Layout, row: Row): ChoiceUpdate {
    ChoiceUpdate(FieldText(CellAt(row, l.text)), FieldText(CellAt(row, l.qc)))
  }

  /** One row read into the updates: a later row with the same key
      replaces an earlier one. */
  function AddRow(u: Updates, l: Layout, row: Row): Updates {
    match RowKeyOf(l, row)
    case NoKey => u
    case ChoiceKeyed(k) => u.(choices := u.choices[k := ChoiceUpdateOf(l, row)])
    case BlockKey(i) => u.(blocks := u.blocks[i := BlockUpdateOf(l, row)])
  }

  function ReadRows(l: Layout, rows: seq<Row>): Updates {
    if rows == [] then Updates(map[], map[]) else AddRow(ReadRows(l, rows[..|rows| - 1]), l, rows[|rows| - 1])
  }

  /** `read_sheet_data(ws)`. */
  function ReadSheet(columns: seq<string>, sheet: Sheet): Updates {
    ReadRows(LayoutOf(ColumnMap(columns, sheet.header)), sheet.body)
  }

  /** Row `r` is the last of `rows` whose key is `k`. */
  predicate LastWith(l: Layout, rows: seq<Row>, k: Key, r: int) {
    0 <= r < |rows| && RowKeyOf(l, rows[r]) == k && forall r' :: r < r' < |rows| ==> RowKeyOf(l, rows[r']) != k
  }

  /** A row whose key is not block `i` leaves that block's update as it
      is. */
  lemma AddRowOtherBlock(u: Updates, l: Layout, row: Row, i: int)
    requires RowKeyOf(l, row) != BlockKey(i)
    ensures var v := AddRow(u, l, row);
      (i in v.blocks <==> i in u.blocks) && (i in u.blocks ==> v.blocks[i] == u.blocks[i])
  {
  }

  /** A row whose key is not the choice key `key` leaves that key's update
      as it is. */
  lemma AddRowOtherChoice(u: Updates, l: Layout, row: Row, key: string)
    requires RowKeyOf(l, row) != ChoiceKeyed(key)
    ensures var v := AddRow(u, l, row);
      (key in v.choices <==> key in u.choices) && (key in u.choices ==> v.choices[key] == u.choices[key])
  {
  }

  /** A block index has an update exactly when some row names it, and the
      update is the last such row's: rows without a key, or whose key does
      not parse, are skipped. */
  lemma {:induction false} ReadRowsBlocks(l: Layout, rows: seq<Row>, i: int)
    ensures var u := ReadRows(l, rows);
      && (i in u.blocks <==> exists r :: 0 <= r < |rows| && RowKeyOf(l, rows[r]) == BlockKey(i))
      && (i in u.blocks ==> exists r :: LastWith(l, rows, BlockKey(i), r) && u.blocks[i] == BlockUpdateOf(l, rows[r]))
  {
    if rows != [] {
      var n := |rows| - 1;
      var init := rows[..n];
      ReadRowsBlocks(l, init, i);
      var u0 := ReadRows(l, init);
      assert ReadRows(l, rows) == AddRow(u0, l, rows[n]);
      if RowKeyOf(l, rows[n]) == BlockKey(i) {
        assert LastWith(l, rows, BlockKey(i), n);
      } else {
        AddRowOtherBlock(u0, l, rows[n], i);
        forall r | 0 <= r < |rows| && RowKeyOf(l, rows[r]) == BlockKey(i)
          ensures r < n && RowKeyOf(l, init[r]) == BlockKey(i)
        {
          if r == n {
            assert false;
          }
        }
        if i in u0.blocks {
          var r :| LastWith(l, init, BlockKey(i), r) && u0.blocks[i] == BlockUpdateOf(l, init[r]);
          assert init[r] == rows[r];
          assert LastWith(l, rows, BlockKey(i), r);
        }
      }
    }
  }

  /** The same for choice keys. */
  lemma {:induction false} ReadRowsChoices(l: Layout, rows: seq<Row>, key: string)
    ensures var u := ReadRows(l, rows);
      && (key in u.choices <==> exists r :: 0 <= r < |rows| && RowKeyOf(l, rows[r]) == ChoiceKeyed(key))
      && (key in u.choices ==> exists r :: LastWith(l, rows, ChoiceKeyed(key), r) && u.choices[key] == ChoiceUpdateOf(l, rows[r]))
  {
    if rows != [] {
      var n := |rows| - 1;
      var init := rows[..n];
      ReadRowsChoices(l, init, key);
      var u0 := ReadRows(l, init);
      assert ReadRows(l, rows) == AddRow(u0, l, rows[n]);
      if RowKeyOf(l, rows[n]) == ChoiceKeyed(key) {
        assert LastWith(l, rows, ChoiceKeyed(key), n);
      } else {
        AddRowOtherChoice(u0, l, rows[n], key);
        forall r | 0 <= r < |rows| && RowKeyOf(l, rows[r]) == ChoiceKeyed(key)
          ensures r < n && RowKeyOf(l, init[r]) == ChoiceKeyed(key)
        {
          if r == n {
            assert false;
          }
        }
        if key in u0.choices {
          var r :| LastWith(l, init, ChoiceKeyed(key), r) && u0.choices[key] == ChoiceUpdateOf(l, init[r]);
          assert init[r] == rows[r];
          assert LastWith(l, rows, ChoiceKeyed(key), r);
        }
      }
    }
  }

  /** `read_sheet_data`: the header loop, then one pass over rows 2 and on. */
  method ReadSheetData(columns: seq<string>, sheet: Sheet) returns (u: Updates)
    ensures u == ReadSheet(columns, sheet)
  {
    var m := BuildColumnMap(columns, sheet.header);
    var l := LayoutOf(m);
    var rows := sheet.body;
    u := Updates(map[], map[]);
    for r := 0 to |rows|
      invariant u == ReadRows(l, rows[..r])
    {
      assert rows[..r + 1][..r] == rows[..r];
      var cell := CellAt(rows[r], l.key);
      if cell != Empty && cell != Text("") {
        var key := CellString(cell);
        if Occurs(key, "-C") {
          u := u.(choices := u.choices[key := ChoiceUpdateOf(l, rows[r])]);
        } else {
          var parsed := ParseInt(key);
          if parsed.Some? {
            u := u.(blocks := u.blocks[parsed.value := BlockUpdateOf(l, rows[r])]);
          }
        }
      }
    }
    assert rows[..|rows|] == rows;
  }

  // ---- merging the updates ----

  /** One guarded write: a field takes the stripped `value` when that is
      non-blank and differs from it; 1 counts a change. */
  function Overwrite(current: string, value: string): (r: (string, nat))
    ensures r.1 == if r.0 != current then 1 else 0
    ensures r.0 == if Strip(value) != [] then Strip(value) else current
  {
    var v := Strip(value);
    if v != [] && current != v then (v, 1) else (current, 0)
  }

  /** The target text of a block or choice after an update: a non-blank QC
      value wins, and the sheet's text counts only without one. */
  function TextUpdate(current: string, enText: string, qc: string): (r: (string, nat))
    ensures r.1 == if r.0 != current then 1 else 0
    ensures Strip(qc) != [] ==> r.0 == Strip(qc)
    ensures Strip(qc) == [] ==> r.0 == if Strip(enText) != [] then Strip(enText) else current
  {
    if Strip(qc) != [] then Overwrite(current, qc) else Overwrite(current, enText)
  }

  /** Choice `c` of the block with index `blockIdx`, matched by the key
      `"{blockIdx}-C{c+1}"`. */
  function ChoiceText(blockIdx: int, c: nat, ch: Choice, u: Updates): (string, nat) {
    var k := ChoiceKey(blockIdx, c);
    if k in u.choices then TextUpdate(ch.enText, u.choices[k].enText, u.choices[k].qc) else (ch.enText, 0)
  }

  function Changed(a: string, b: string): nat {
    if a != b then 1 else 0
  }

  /** The choices whose target text differs between `a` and `b`. */
  function ChoiceChanges(a: seq<Choice>, b: seq<Choice>): nat
    requires |a| == |b|
  {
    if a == [] then 0 else ChoiceChanges(a[..|a| - 1], b[..|b| - 1]) + Changed(a[|a| - 1].enText, b[|b| - 1].enText)
  }

  /** The target fields, name, text and choice texts, that differ. */
  function BlockChanges(a: Block, b: Block): nat
    requires |a.choices| == |b.choices|
  {
    Changed(a.enName, b.enName) + Changed(a.enText, b.enText) + ChoiceChanges(a.choices, b.choices)
  }

  function Changes(a: seq<Block>, b: seq<Block>): nat
    requires SameShape(a, b)
  {
    if a == [] then 0 else Changes(a[..|a| - 1], b[..|b| - 1]) + BlockChanges(a[|a| - 1], b[|b| - 1])
  }

  /** The name and text of one block under `apply_updates`: only they may
      change, both stay without an update under the block's index, and the
      count is the number of the two that changed. */
  function ApplyHead(b: Block, u: Updates): (r: (Block, nat))
    ensures r.0 == b.(enName := r.0.enName, enText := r.0.enText)
    ensures r.1 == Changed(b.enName, r.0.enName) + Changed(b.enText, r.0.enText)
    ensures b.blockIdx !in u.blocks ==> r.0 == b
  {
    if b.blockIdx in u.blocks then
      var up := u.blocks[b.blockIdx];
      var t := TextUpdate(b.enText, up.enText, up.qc);
      var nm := Overwrite(b.enName, up.enName);
      (b.(enText := t.0, enName := nm.0), t.1 + nm.1)
    else (b, 0)
  }

  /** The choice loop of `apply_updates` for one block: choice `c` is
      changed only through the update under its own key. */
  function ApplyChoices(blockIdx: int, cs: seq<Choice>, u: Updates): (r: (seq<Choice>, nat))
    ensures |r.0| == |cs|
    decreases |cs|, 1
  {
    if cs == [] then ([], 0) else ApplyChoicesLast(blockIdx, cs, u)
  }

  /** The choices before the last one, then the last. */
  function ApplyChoicesLast(blockIdx: int, cs: seq<Choice>, u: Updates): (r: (seq<Choice>, nat))
    requires cs != []
    ensures |r.0| == |cs|
    decreases |cs|, 0
  {
    var n := |cs| - 1;
    var p := ApplyChoices(blockIdx, cs[..n], u);
    var t := ChoiceText(blockIdx, n, cs[n], u);
    (p.0 + [cs[n].(enText := t.0)], p.1 + t.1)
  }

  lemma {:induction false} ApplyChoicesIndex(blockIdx: int, cs: seq<Choice>, u: Updates, c: nat)
    requires c < |cs|
    ensures ApplyChoices(blockIdx, cs, u).0[c] == cs[c].(enText := ChoiceText(blockIdx, c, cs[c], u).0)
  {
    var n := |cs| - 1;
    assert ApplyChoices(blockIdx, cs, u) == ApplyChoicesLast(blockIdx, cs, u);
    if c < n {
      ApplyChoicesIndex(blockIdx, cs[..n], u, c);
    }
  }

  /** `apply_updates` on one block: its name and text, then its choices. */
  function ApplyBlock(b: Block, u: Updates): (Block, nat) {
    var h := ApplyHead(b, u);
    var cr := ApplyChoices(b.blockIdx, b.choices, u);
    (h.0.(choices := cr.0), h.1 + cr.1)
  }

  /** `apply_updates(data, updates)` on a whole record set: every block is
      merged on its own, by `ApplyBlock`. */
  function ApplyAll(bs: seq<Block>, u: Updates): (r: (seq<Block>, nat))
    ensures |r.0| == |bs|
    decreases |bs|, 1
  {
    if bs == [] then ([], 0) else ApplyAllLast(bs, u)
  }

  /** The blocks before the last one, then the last. */
  function ApplyAllLast(bs: seq<Block>, u: Updates): (r: (seq<Block>, nat))
    requires bs != []
    ensures |r.0| == |bs|
    decreases |bs|, 0
  {
    var n := |bs| - 1;
    var p := ApplyAll(bs[..n], u);
    var t := ApplyBlock(bs[n], u);
    (p.0 + [t.0], p.1 + t.1)
  }

  lemma {:induction false} ApplyAllIndex(bs: seq<Block>, u: Updates, i: nat)
    requires i < |bs|
    ensures ApplyAll(bs, u).0[i] == ApplyBlock(bs[i], u).0
  {
    var n := |bs| - 1;
    assert ApplyAll(bs, u) == ApplyAllLast(bs, u);
    if i < n {
      ApplyAllIndex(bs[..n], u, i);
    }
  }

  lemma {:induction false} ApplyAllStep(bs: seq<Block>, u: Updates, i: nat)
    requires i < |bs|
    ensures var p, t := ApplyAll(bs[..i], u), ApplyBlock(bs[i], u);
      ApplyAll(bs[..i + 1], u) == (p.0 + [t.0], p.1 + t.1)
  {
    assert ApplyAll(bs[..i + 1], u) == ApplyAllLast(bs[..i + 1], u);
    assert bs[..i + 1][..i] == bs[..i];
  }

  lemma {:induction false} ApplyChoicesStep(blockIdx: int, cs: seq<Choice>, c: nat, u: Updates)
    requires c < |cs|
    ensures var p, t := ApplyChoices(blockIdx, cs[..c], u), ChoiceText(blockIdx, c, cs[c], u);
      ApplyChoices(blockIdx, cs[..c + 1], u) == (p.0 + [cs[c].(enText := t.0)], p.1 + t.1)
  {
    assert ApplyChoices(blockIdx, cs[..c + 1], u) == ApplyChoicesLast(blockIdx, cs[..c + 1], u);
    assert cs[..c + 1][..c] == cs[..c];
  }

  /** What `apply_updates` does to block `i`: with an update under its
      index, a non-blank stripped QC value becomes its text, and otherwise a
      non-blank stripped sheet text does, and a non-blank stripped sheet name
      becomes its name; without one, name and text stay. Its index, source
      texts and number of choices never change. */
  lemma ApplyAllBlock(bs: seq<Block>, u: Updates, i: nat)
    requires i < |bs|
    ensures var b, b' := bs[i], ApplyAll(bs, u).0[i];
      && SameBlockShape(b, b')
      && (b.blockIdx !in u.blocks ==> b'.enName == b.enName && b'.enText == b.enText)
      && (b.blockIdx in u.blocks ==>
            var up := u.blocks[b.blockIdx];
            && b'.enText == (if Strip(up.qc) != [] then Strip(up.qc) else if Strip(up.enText) != [] then Strip(up.enText) else b.enText)
            && b'.enName == (if Strip(up.enName) != [] then Strip(up.enName) else b.enName))
  {
    ApplyAllIndex(bs, u, i);
    ApplyBlockCount(bs[i], u);
  }

  /** What `apply_updates` does to choice `c` of block `i`: only the update
      under the key "{blockIdx}-C{c+1}" can change it, and then a non-blank
      stripped QC value wins over a non-blank stripped sheet text. */
  lemma ApplyAllChoice(bs: seq<Block>, u: Updates, i: nat, c: nat)
    requires i < |bs| && c < |bs[i].choices|
    ensures var ch, k, b' := bs[i].choices[c], ChoiceKey(bs[i].blockIdx, c), ApplyAll(bs, u).0[i];
      && c < |b'.choices| && b'.choices[c].jpText == ch.jpText
      && (k !in u.choices ==> b'.choices[c] == ch)
      && (k in u.choices ==>
            var cu := u.choices[k];
            b'.choices[c].enText == (if Strip(cu.qc) != [] then Strip(cu.qc) else if Strip(cu.enText) != [] then Strip(cu.enText) else ch.enText))
  {
    ApplyAllIndex(bs, u, i);
    ApplyChoicesIndex(bs[i].blockIdx, bs[i].choices, u, c);
  }

  lemma {:induction false} ApplyChoicesCount(blockIdx: int, cs: seq<Choice>, u: Updates)
    ensures var r := ApplyChoices(blockIdx, cs, u);
      r.1 == ChoiceChanges(cs, r.0)
  {
    if cs != [] {
      var n := |cs| - 1;
      ApplyChoicesCount(blockIdx, cs[..n], u);
      assert ApplyChoices(blockIdx, cs, u) == ApplyChoicesLast(blockIdx, cs, u);
      var r := ApplyChoices(blockIdx, cs, u);
      assert r.0[..n] == ApplyChoices(blockIdx, cs[..n], u).0;
    }
  }

  lemma ApplyBlockCount(b: Block, u: Updates)
    ensures var r := ApplyBlock(b, u);
      SameBlockShape(b, r.0) && r.1 == BlockChanges(b, r.0)
  {
    forall c | 0 <= c < |b.choices|
      ensures ApplyChoices(b.blockIdx, b.choices, u).0[c].jpText == b.choices[c].jpText
    {
      ApplyChoicesIndex(b.blockIdx, b.choices, u, c);
    }
    ApplyChoicesCount(b.blockIdx, b.choices, u);
  }

  /** Only target fields change, and the count `apply_updates` returns is
      the number of target fields (names, texts, choice texts) whose value
      differs afterwards. */
  lemma {:induction false} ApplyAllCount(bs: seq<Block>, u: Updates)
    ensures var r := ApplyAll(bs, u);
      SameShape(bs, r.0) && r.1 == Changes(bs, r.0)
  {
    var r := ApplyAll(bs, u);
    forall i | 0 <= i < |bs| ensures SameBlockShape(bs[i], r.0[i]) {
      ApplyAllIndex(bs, u, i);
      ApplyBlockCount(bs[i], u);
    }
    if bs != [] {
      var n := |bs| - 1;
      ApplyAllCount(bs[..n], u);
      ApplyBlockCount(bs[n], u);
      assert ApplyAll(bs, u) == ApplyAllLast(bs, u);
      assert r.0[..n] == ApplyAll(bs[..n], u).0;
    }
  }

  lemma {:induction false} NoChoiceChanges(cs: seq<Choice>)
    ensures ChoiceChanges(cs, cs) == 0
  {
    if cs != [] {
      NoChoiceChanges(cs[..|cs| - 1]);
    }
  }

  lemma {:induction false} NoChanges(bs: seq<Block>)
    ensures Changes(bs, bs) == 0
  {
    if bs != [] {
      NoChanges(bs[..|bs| - 1]);
      NoChoiceChanges(bs[|bs| - 1].choices);
    }
  }

  /** One block merged twice is merged once: each write is guarded by an
      inequality with the value it would write. */
  lemma ApplyBlockIdempotent(b: Block, u: Updates)
    ensures var once := ApplyBlock(b, u).0;
      ApplyBlock(once, u).0 == once
  {
    var once := ApplyBlock(b, u).0;
    var again := ApplyBlock(once, u).0;
    assert again.choices == once.choices by {
      forall c | 0 <= c < |once.choices| ensures again.choices[c] == once.choices[c] {
        ApplyChoicesIndex(b.blockIdx, b.choices, u, c);
        ApplyChoicesIndex(b.blockIdx, once.choices, u, c);
        assert ChoiceText(b.blockIdx, c, once.choices[c], u).0 == once.choices[c].enText;
      }
    }
  }

  /** Applying the same updates again changes nothing and counts 0. */
  lemma {:induction false} ApplyIdempotent(bs: seq<Block>, u: Updates)
    ensures var once := ApplyAll(bs, u).0;
      ApplyAll(once, u) == (once, 0)
  {
    var once := ApplyAll(bs, u).0;
    var twice := ApplyAll(once, u);
    forall i | 0 <= i < |bs| ensures twice.0[i] == once[i] {
      ApplyAllIndex(bs, u, i);
      ApplyAllIndex(once, u, i);
      ApplyBlockIdempotent(bs[i], u);
    }
    assert twice.0 == once;
    ApplyAllCount(once, u);
    NoChanges(once);
  }

  /** The in-place merge, `apply_updates`: one block at a time, in order;
      the count is the number of target fields it changed. */
  method ApplyUpdates(data: RecordSet, u: Updates) returns (count: nat)
    modifies data
    ensures (data.blocks, count) == ApplyAll(old(data.blocks), u)
  {
    ghost var bs0 := data.blocks;
    count := 0;
    for i := 0 to |data.blocks|
      invariant data.blocks == ApplyAll(bs0[..i], u).0 + bs0[i..]
      invariant count == ApplyAll(bs0[..i], u).1
    {
      ghost var p, t := ApplyAll(bs0[..i], u), ApplyBlock(bs0[i], u);
      assert ApplyAll(bs0[..i + 1], u) == (p.0 + [t.0], p.1 + t.1) by {
        ApplyAllStep(bs0, u, i);
      }
      assert data.blocks[i] == bs0[i];
      var n := ApplyBlockAt(data, i, u);
      count := count + n;
      SpliceAt(p.0, bs0, i, t.0);
    }
    assert bs0[..|bs0|] == bs0 && bs0[|bs0|..] == [];
    assert data.blocks == ApplyAll(bs0, u).0 + [] == ApplyAll(bs0, u).0;
  }

  /** One block of `apply_updates`: the text and the name, then the
      choices. */
  method ApplyBlockAt(data: RecordSet, i: nat, u: Updates) returns (n: nat)
    requires i < |data.blocks|
    modifies data
    ensures var r := ApplyBlock(old(data.blocks[i]), u);
      data.blocks == old(data.blocks)[i := r.0] && n == r.1
  {
    ghost var bs0 := data.blocks;
    n := ApplyHeadAt(data, i, u);
    ghost var bs1 := data.blocks;
    var m := ApplyChoicesAt(data, i, u);
    n := n + m;
    assert bs1[i].choices == bs0[i].choices && bs1[i].blockIdx == bs0[i].blockIdx;
    assert data.blocks == bs0[i := ApplyBlock(bs0[i], u).0];
  }

  /** The text and name writes of `apply_updates` for block `i`. */
  method ApplyHeadAt(data: RecordSet, i: nat, u: Updates) returns (n: nat)
    requires i < |data.blocks|
    modifies data
    ensures var h := ApplyHead(old(data.blocks[i]), u);
      data.blocks == old(data.blocks)[i := h.0] && n == h.1
  {
    ghost var bs0 := data.blocks;
    var block := data.blocks[i];
    n := 0;
    if block.blockIdx in u.blocks {
      var up := u.blocks[block.blockIdx];
      ghost var t := TextUpdate(block.enText, up.enText, up.qc);
      var qc := Strip(up.qc);
      if qc != [] {
        if block.enText != qc {
          data.Write(TextSlot(i), qc);
          n := n + 1;
        }
      } else {
        var enText := Strip(up.enText);
        if enText != [] && block.enText != enText {
          data.Write(TextSlot(i), enText);
          n := n + 1;
        }
      }
      assert data.blocks == bs0[i := block.(enText := t.0)] && n == t.1;
      ghost var bs1 := data.blocks;
      var enName := Strip(up.enName);
      if enName != [] && block.enName != enName {
        data.Write(NameSlot(i), enName);
        n := n + 1;
      }
      assert data.blocks == bs1[i := bs1[i].(enName := Overwrite(block.enName, up.enName).0)];
    }
  }

  /** The choice loop of `apply_updates` for block `i`. */
  method ApplyChoicesAt(data: RecordSet, i: nat, u: Updates) returns (m: nat)
    requires i < |data.blocks|
    modifies data
    ensures var b := old(data.blocks[i]);
      var r := ApplyChoices(b.blockIdx, b.choices, u);
      data.blocks == old(data.blocks)[i := b.(choices := r.0)] && m == r.1
  {
    ghost var bs0 := data.blocks;
    var block := data.blocks[i];
    var cs := block.choices;
    m := 0;
    assert ApplyChoices(block.blockIdx, cs[..0], u) == ([], 0);
    assert [] + cs[0..] == cs && block.(choices := cs) == block;
    assert data.blocks == bs0[i := block];
    for c := 0 to |cs|
      invariant var r := ApplyChoices(block.blockIdx, cs[..c], u);
        data.blocks == bs0[i := block.(choices := r.0 + cs[c..])] && m == r.1
    {
      var k := ApplyNextChoice(data, i, block, c, bs0, u);
      m := m + k;
    }
    assert cs[..|cs|] == cs && cs[|cs|..] == [];
    ghost var r := ApplyChoices(block.blockIdx, cs, u);
    assert r.0 + [] == r.0;
  }

  /** One turn of the choice loop: the first `c` choices are merged, and
      choice `c` is merged next. */
  method ApplyNextChoice(data: RecordSet, i: nat, block: Block, c: nat, ghost bs0: seq<Block>, u: Updates) returns (k: nat)
    requires i < |bs0| && block == bs0[i] && c < |block.choices|
    requires data.blocks == bs0[i := block.(choices := ApplyChoices(block.blockIdx, block.choices[..c], u).0 + block.choices[c..])]
    modifies data
    ensures var r := ApplyChoices(block.blockIdx, block.choices[..c + 1], u);
      && data.blocks == bs0[i := block.(choices := r.0 + block.choices[c + 1..])]
      && r.1 == ApplyChoices(block.blockIdx, block.choices[..c], u).1 + k
  {
    var cs := block.choices;
    ghost var p, t := ApplyChoices(block.blockIdx, cs[..c], u), ChoiceText(block.blockIdx, c, cs[c], u);
    assert ApplyChoices(block.blockIdx, cs[..c + 1], u) == (p.0 + [cs[c].(enText := t.0)], p.1 + t.1) by {
      ApplyChoicesStep(block.blockIdx, cs, c, u);
    }
    assert data.blocks[i].choices[c] == cs[c];
    k := ApplyChoiceAt(data, i, c, u);
    SpliceAt(p.0, cs, c, cs[c].(enText := t.0));
    assert data.blocks == bs0[i := block.(choices := p.0 + [cs[c].(enText := t.0)] + cs[c + 1..])];
  }

  /** One choice of the choice loop: its key looked up, and its text
      written when the update changes it. */
  method ApplyChoiceAt(data: RecordSet, i: nat, c: nat, u: Updates) returns (k: nat)
    requires i < |data.blocks| && c < |data.blocks[i].choices|
    modifies data
    ensures var b := old(data.blocks[i]);
      var t := ChoiceText(b.blockIdx, c, b.choices[c], u);
      data.blocks == old(data.blocks)[i := b.(choices := b.choices[c := b.choices[c].(enText := t.0)])] && k == t.1
  {
    var block := data.blocks[i];
    var choice := block.choices[c];
    var key := ChoiceKey(block.blockIdx, c);
    k := 0;
    if key in u.choices {
      var cu := u.choices[key];
      var qc := Strip(cu.qc);
      var v := if qc != [] then qc else Strip(cu.enText);
      if v != [] && choice.enText != v {
        data.Write(ChoiceSlot(i, c), v);
        k := 1;
        return;
      }
    }
    assert choice.(enText := choice.enText) == choice;
    assert block.choices[c := choice] == block.choices;
    assert block.(choices := block.choices) == block;
  }

  // ---- which file a sheet updates ----

  /** The file a sheet is merged into: read from `source` and written to
      `dest`, both relative paths without extension; or skipped. */
  datatype Target = Skipped | Target(source: string, dest: string)

  /** The first listed file whose sheet name is `title`. */
  function FirstMatch(listed: seq<string>, title: string, sep: char): Option<string> {
    if listed == [] then None
    else if SheetName(listed[0], sep) == title then Some(listed[0])
    else FirstMatch(listed[1..], title, sep)
  }

  /** The match is a listed file with that sheet name and no earlier file
      has it; there is no match exactly when no listed file has it. */
  lemma {:induction false} FirstMatchFacts(listed: seq<string>, title: string, sep: char)
    ensures var r := FirstMatch(listed, title, sep);
      && (r.Some? ==> exists k :: 0 <= k < |listed| && listed[k] == r.value && SheetName(listed[k], sep) == title
                                  && forall j :: 0 <= j < k ==> SheetName(listed[j], sep) != title)
      && (r.None? <==> forall k :: 0 <= k < |listed| ==> SheetName(listed[k], sep) != title)
  {
    if listed != [] && SheetName(listed[0], sep) != title {
      var rest := listed[1..];
      FirstMatchFacts(rest, title, sep);
      assert forall k :: 1 <= k < |listed| ==> listed[k] == rest[k - 1];
      var r := FirstMatch(rest, title, sep);
      if r.Some? {
        var k :| 0 <= k < |rest| && rest[k] == r.value && SheetName(rest[k], sep) == title
          && forall j :: 0 <= j < k ==> SheetName(rest[j], sep) != title;
        assert listed[k + 1] == r.value;
        forall j | 0 <= j < k + 1 ensures SheetName(listed[j], sep) != title {
          if j > 0 { assert listed[j] == rest[j - 1]; }
        }
      }
    } else if listed != [] {
      assert SheetName(listed[0], sep) == title;
    }
  }

  /** The matching loop of `excel_to_json`, stopping at the first match. */
  method FindMatch(listed: seq<string>, title: string, sep: char) returns (r: Option<string>)
    ensures r == FirstMatch(listed, title, sep)
  {
    var k := 0;
    while k < |listed|
      invariant 0 <= k <= |listed|
      invariant FirstMatch(listed, title, sep) == FirstMatch(listed[k..], title, sep)
    {
      assert listed[k..][1..] == listed[k + 1..];
      if SheetName(listed[k], sep) == title {
        return Some(listed[k]);
      }
      k := k + 1;
    }
    return None;
  }

  /** The first data row's FilePath cell. */
  function FilePathCell(sheet: Sheet): Cell {
    if sheet.body == [] then Empty else CellAt(sheet.body[0], 1)
  }

  /** How `excel_to_json` picks a sheet's file, as written: the FilePath
      cell when there is one; otherwise the sheet name with '_' turned into
      separators; otherwise the first listed file with the same sheet name,
      which is read, while the merged result is written to the guessed path
      instead. */
  function ResolveAsWritten(title: string, filePath: string, existing: set<string>, listed: seq<string>, sep: char): Target {
    if filePath != [] then
      if filePath in existing then Target(filePath, filePath) else Skipped
    else
      var guess := ReplaceChar(title, '_', sep);
      if guess in existing then Target(guess, guess)
      else match FirstMatch(listed, title, sep)
        case None => Skipped
        case Some(f) => if f in existing then Target(f, guess) else Skipped
  }

  /** A sheet without a FilePath cell, named "x_y" for the file "x_y": the
      guess "x/y" does not exist, the fallback finds "x_y" and reads it, and
      the result goes to "x/y", a file that did not exist, while "x_y" keeps
      its old content. */
  lemma ResolveWritesElsewhere()
    ensures ResolveAsWritten("x_y", "", {"x_y"}, ["x_y"], '/') == Target("x_y", "x/y")
  {
    var guess := ReplaceChar("x_y", '_', '/');
    assert guess == "x/y";
    assert guess !in {"x_y"};
    assert SheetName("x_y", '/') == "x_y";
  }

  /** How a sheet's file is picked, with the matched file both read and
      written back. */
  function Resolve(title: string, filePath: string, existing: set<string>, listed: seq<string>, sep: char): (r: Target)
    ensures r.Target? ==> r.source == r.dest && r.source in existing
    ensures filePath != [] ==> r == if filePath in existing then Target(filePath, filePath) else Skipped
    ensures filePath == [] && ReplaceChar(title, '_', sep) !in existing ==>
      r == match FirstMatch(listed, title, sep)
        case None => Skipped
        case Some(f) => if f in existing then Target(f, f) else Skipped
  {
    match ResolveAsWritten(title, filePath, existing, listed, sep)
    case Skipped => Skipped
    case Target(source, _) => Target(source, source)
  }

  /** The files under the output folder, by relative path without
      extension, with their record sets. */
  type Files = map<string, seq<Block>>

  /** One sheet of `excel_to_json`: its file resolved, its rows read and
      merged in, and the file written back. No other file changes and no
      file is created; the count is the number of target fields changed. */
  function ImportSheet(fs: Files, listed: seq<string>, columns: seq<string>, sep: char, sheet: Sheet): (r: (Files, nat))
    ensures r.0.Keys == fs.Keys
    ensures var t := Resolve(sheet.title, FieldText(FilePathCell(sheet)), fs.Keys, listed, sep);
      forall p :: p in fs && (t.Skipped? || p != t.dest) ==> r.0[p] == fs[p]
  {
    match Resolve(sheet.title, FieldText(FilePathCell(sheet)), fs.Keys, listed, sep)
    case Skipped => (fs, 0)
    case Target(source, dest) =>
      var applied := ApplyAll(fs[source], ReadSheet(columns, sheet));
      (fs[dest := applied.0], applied.1)
  }
}
