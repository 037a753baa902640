/**
 * Recoding a wide coding sheet into the long layout
 * (src/short_to_long.py): every cell whose text is a code name sets that
 * code's own column to 1, and each row is written with the fixed field
 * names `ID`, `phone`, `text` and the code names.
 *
 * A row read by `csv.DictReader` is a dictionary from field name to cell;
 * a field the line is too short for holds `None` (`Missing` here), and the
 * recoding loop stores the integer 1 (`One`).  `csv.DictWriter` writes
 * `None` and an absent field as the empty string and 1 as "1"; it drops
 * every key that is not a field name.
 */
module ShortToLong {

  datatype Value = Missing | Text(s: string) | One

  type Record = map<string, Value>

  // ---------------------------------------------------------------------------
  // Reading

  /**
   * The dictionary `csv.DictReader` builds from the field names and one
   * line: field `i` holds cell `i`, or `Missing` when the line is shorter;
   * a repeated field name keeps its last position's cell; cells beyond the
   * field names are not under any field name.
   */
  function DictRow(fields: seq<string>, values: seq<string>): (d: Record)
    ensures d.Keys == set f | f in fields
  {
    if fields == [] then map[]
    else
      var n := |fields| - 1;
      assert fields == fields[..n] + [fields[n]];
      DictRow(fields[..n], values)[fields[n] := if n < |values| then Text(values[n]) else Missing]
  }

  /** The field at its last position holds that position's cell, or `Missing` past the end of the line. */
  lemma {:induction false} DictRowCells(fields: seq<string>, values: seq<string>, i: nat)
    requires i < |fields| && LastOf(fields, i)
    ensures DictRow(fields, values)[fields[i]] == if i < |values| then Text(values[i]) else Missing
  {
    var n := |fields| - 1;
    if i < n {
      var front := fields[..n];
      assert forall j :: 0 <= j < n ==> front[j] == fields[j];
      assert LastOf(front, i) && fields[n] != fields[i];
      DictRowCells(front, values, i);
    }
  }

  /** Position `i` is the last occurrence of its field name. */
  predicate LastOf(fields: seq<string>, i: nat)
    requires i < |fields|
  {
    forall j :: i < j < |fields| ==> fields[j] != fields[i]
  }

  /** The lines `csv.DictReader` turns into rows: it skips blank lines. */
  function Nonblank(lines: seq<seq<string>>): (rows: seq<seq<string>>)
    ensures |rows| <= |lines|
    ensures forall k :: 0 <= k < |rows| ==> rows[k] != [] && rows[k] in lines
  {
    if lines == [] then []
    else
      var n := |lines| - 1;
      var front := Nonblank(lines[..n]);
      if lines[n] == [] then front else front + [lines[n]]
  }

  // ---------------------------------------------------------------------------
  // Recoding

  /** One pass of the inner loop: a cell that names a code sets that code's key to 1. */
  function Step(row: Record, column: string, codes: seq<string>): Record {
    if column in row && row[column].Text? && row[column].s in codes then row[row[column].s := One] else row
  }

  /** The inner loop over the columns, in column order, each pass seeing the row as the earlier passes left it. */
  function Recoded(row: Record, columns: seq<string>, codes: seq<string>): (out: Record)
    ensures out.Keys >= row.Keys
    ensures forall k :: k in out && k !in codes ==> k in row && out[k] == row[k]
    ensures forall k :: k in out ==> out[k] == One || (k in row && out[k] == row[k])
  {
    if columns == [] then row
    else
      var n := |columns| - 1;
      Step(Recoded(row, columns[..n], codes), columns[n], codes)
  }

  /**
   * The recoding loop for one row: `row[row[column]] = 1` for every column
   * whose current cell is a code name.
   */
  method RecodeRow(row: Record, columns: seq<string>, codes: seq<string>) returns (out: Record)
    ensures out == Recoded(row, columns, codes)
  {
    out := row;
    for i := 0 to |columns|
      invariant out == Recoded(row, columns[..i], codes)
    {
      assert columns[..i + 1][..i] == columns[..i];
      var column := columns[i];
      if column in out && out[column].Text? && out[column].s in codes {
        out := out[out[column].s := One];
      }
    }
    assert columns[..|columns|] == columns;
  }

  /**
   * When no column is named after a code, the cells never change, and a
   * code's key holds 1 after recoding exactly when some column's cell names
   * it; every other key keeps its value.
   */
  lemma {:induction false} RecodedCodes(row: Record, columns: seq<string>, codes: seq<string>)
    requires forall j :: 0 <= j < |columns| ==> columns[j] !in codes
    ensures var out := Recoded(row, columns, codes);
            forall c :: c in codes ==>
              ((c in out && out[c] == One) <==>
                 (c in row && row[c] == One) || exists j :: 0 <= j < |columns| && columns[j] in row && row[columns[j]] == Text(c))
    ensures var out := Recoded(row, columns, codes);
            forall j :: 0 <= j < |columns| && columns[j] in row ==> columns[j] in out && out[columns[j]] == row[columns[j]]
  {
    if columns != [] {
      var n := |columns| - 1;
      var front := columns[..n];
      assert forall j :: 0 <= j < n ==> front[j] == columns[j];
      RecodedCodes(row, front, codes);
      var mid := Recoded(row, front, codes);
      var out := Recoded(row, columns, codes);
      forall c | c in codes
        ensures (c in out && out[c] == One) <==>
                  (c in row && row[c] == One) || exists j :: 0 <= j < |columns| && columns[j] in row && row[columns[j]] == Text(c)
      {
        if exists j :: 0 <= j < |columns| && columns[j] in row && row[columns[j]] == Text(c) {
          var j :| 0 <= j < |columns| && columns[j] in row && row[columns[j]] == Text(c);
          if j < n {
            assert front[j] == columns[j];
          }
        }
      }
    }
  }

  /** Recoding a second time changes nothing when no column is named after a code. */
  lemma RecodedIdempotent(row: Record, columns: seq<string>, codes: seq<string>)
    requires forall j :: 0 <= j < |columns| ==> columns[j] !in codes
    ensures Recoded(Recoded(row, columns, codes), columns, codes) == Recoded(row, columns, codes)
  {
    var once := Recoded(row, columns, codes);
    var twice := Recoded(once, columns, codes);
    RecodedCodes(row, columns, codes);
    RecodedCodes(once, columns, codes);
    forall c | c in codes ensures (c in twice && twice[c] == One) <==> (c in once && once[c] == One) {
      if exists j :: 0 <= j < |columns| && columns[j] in once && once[columns[j]] == Text(c) {
        var j :| 0 <= j < |columns| && columns[j] in once && once[columns[j]] == Text(c);
        assert columns[j] in row && row[columns[j]] == Text(c);
      }
    }
    assert twice.Keys == once.Keys;
    forall k | k in twice ensures twice[k] == once[k] {
    }
  }

  /**
   * A column named after a code is overwritten with 1 when an earlier
   * column names that code, and the code its own cell named is then lost:
   * the loop's outcome depends on the column order.
   */
  lemma OverwrittenCell(col: string, a: string, b: string, codes: seq<string>)
    requires a in codes && b in codes && col != a && col != b && a != b
    ensures var row := map[col := Text(a), a := Text(b)];
            var out := Recoded(row, [col, a], codes);
            out[a] == One && b !in out
    ensures var row := map[col := Text(a), a := Text(b)];
            var out := Recoded(row, [a, col], codes);
            out[a] == One && b in out && out[b] == One
  {
    var row := map[col := Text(a), a := Text(b)];
    assert [col, a][..1] == [col] && [a, col][..1] == [a] && [col][..0] == [] && [a][..0] == [];
    var colFirst := Step(row, col, codes);
    assert Recoded(row, [col], codes) == colFirst == row[a := One];
    assert Recoded(row, [col, a], codes) == Step(colFirst, a, codes) == colFirst;
    var aFirst := Step(row, a, codes);
    assert Recoded(row, [a], codes) == aFirst == row[b := One];
    assert Recoded(row, [a, col], codes) == Step(aFirst, col, codes) == aFirst[a := One];
  }

  // ---------------------------------------------------------------------------
  // Writing

  /** The CSV text of a cell. */
  function CellText(v: Value): string {
    match v
    case Missing => ""
    case Text(s) => s
    case One => "1"
  }

  /** The line `csv.DictWriter` writes: one cell per field name, empty for an absent key, other keys ignored. */
  function Written(row: Record, fieldnames: seq<string>): (line: seq<string>)
    ensures |line| == |fieldnames|
    ensures forall k :: 0 <= k < |fieldnames| ==> line[k] == if fieldnames[k] in row then CellText(row[fieldnames[k]]) else ""
  {
    seq(|fieldnames|, k requires 0 <= k < |fieldnames| => if fieldnames[k] in row then CellText(row[fieldnames[k]]) else "")
  }

  /** Keys other than the field names do not reach the written line. */
  lemma ExtraKeysIgnored(row: Record, extra: Record, fieldnames: seq<string>)
    requires forall k :: k in extra ==> k !in fieldnames
    ensures Written(row + extra, fieldnames) == Written(row - extra.Keys, fieldnames)
  {
  }

  /** The written field names: the identifier, phone and text columns, then the codes. */
  function Fieldnames(codes: seq<string>): (names: seq<string>)
    ensures |names| == |codes| + 3 && names[..3] == ["ID", "phone", "text"] && names[3..] == codes
  {
    ["ID", "phone", "text"] + codes
  }

  /**
   * The script: the heading line, then one line per nonblank input line,
   * recoded over the input's field names and written under the fixed
   * field names.
   */
  method Convert(columns: seq<string>, lines: seq<seq<string>>, codes: seq<string>) returns (out: seq<seq<string>>)
    ensures |out| == |Nonblank(lines)| + 1
    ensures out[0] == Fieldnames(codes)
    ensures forall i :: 0 <= i < |Nonblank(lines)| ==>
              out[i + 1] == Written(Recoded(DictRow(columns, Nonblank(lines)[i]), columns, codes), Fieldnames(codes))
  {
    var fieldnames := Fieldnames(codes);
    out := [fieldnames];
    ghost var read: seq<seq<string>> := [];
    for i := 0 to |lines|
      invariant read == Nonblank(lines[..i])
      invariant |out| == |read| + 1 && out[0] == fieldnames
      invariant forall k :: 0 <= k < |read| ==>
                  out[k + 1] == Written(Recoded(DictRow(columns, read[k]), columns, codes), fieldnames)
    {
      assert lines[..i + 1][..i] == lines[..i];
      if lines[i] != [] {
        var row := DictRow(columns, lines[i]);
        row := RecodeRow(row, columns, codes);
        out := out + [Written(row, fieldnames)];
        read := read + [lines[i]];
      }
    }
    assert lines[..|lines|] == lines;
  }

  /**
   * Every code column of a written line is "1" when a cell of the row named
   * the code (no input column being named after a code) and empty when no
   * cell did and the input has no column of that name.
   */
  lemma WrittenCodes(columns: seq<string>, values: seq<string>, codes: seq<string>, k: nat)
    requires forall j :: 0 <= j < |columns| ==> columns[j] !in codes
    requires k < |codes|
    ensures var row := DictRow(columns, values);
            var line := Written(Recoded(row, columns, codes), Fieldnames(codes));
            (line[k + 3] == "1" <== exists j :: 0 <= j < |columns| && row[columns[j]] == Text(codes[k])) &&
            (line[k + 3] == "" <== codes[k] !in columns && forall j :: 0 <= j < |columns| ==> row[columns[j]] != Text(codes[k]))
  {
    var row := DictRow(columns, values);
    RecodedCodes(row, columns, codes);
    assert Fieldnames(codes)[k + 3] == codes[k];
  }
}
