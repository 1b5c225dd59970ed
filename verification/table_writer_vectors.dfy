/**
  The behaviour pinned by the repository's tests, stated on the model:
  three columns `Id`, `Count`, `Timestamp` of widths 6, 9 and 12. Each
  expected output is written line by line, as the tests write it.
 */
module TableWriterVectors {
  import opened Text
  import opened Align
  import opened Layout
  import opened TableWriter

  const Headers: seq<string> := ["Id", "Count", "Timestamp"]
  const Widths: seq<int> := [6, 9, 12]
  const TableRows: seq<seq<string>> := [
    ["1", "11", "1461910429"],
    ["2", "12", "1461910429"],
    ["1000", "999999", "1461910429"]
  ]

  const BorderText: string := "+------+---------+------------+\n"
  const HeaderRowText: string := "|  Id  |  Count  | Timestamp  |\n"
  const SampleRowText: string := "|  12  |   10    | 1461910429 |\n"
  const TableRowText0: string := "|  1   |   11    | 1461910429 |\n"
  const TableRowText1: string := "|  2   |   12    | 1461910429 |\n"
  const TableRowText2: string := "| 1000 | 999999  | 1461910429 |\n"
  const SummaryText0: string := "|Id's: 3                      |\n"
  const SummaryText1: string := "|Count: 1000022               |\n"

  const HeaderText: string := BorderText + HeaderRowText + BorderText
  const TableText: string := HeaderText + (TableRowText0 + TableRowText1 + TableRowText2) + BorderText

  /** The writer the tests build. */
  function TestWriter(): (w: Writer)
    ensures w.Valid()
    ensures w.headers == Headers && w.widths == Widths
  {
    Writer(Headers, Widths)
  }

  /** The three-column instances of the line builders, spelled out. */
  lemma RepeatWithValueThree(sep: string, x: string, y: string, z: string)
    ensures RepeatWithValue(sep, [x, y, z]) == sep + x + sep + y + sep + z
  {
    assert [x, y, z][..2] == [x, y];
    assert [x, y][..1] == [x];
    assert [x][..0] == [];
    calc {
      RepeatWithValue(sep, [x, y, z]);
      RepeatWithValue(sep, [x, y]) + sep + z;
      RepeatWithValue(sep, [x]) + sep + y + sep + z;
      RepeatWithValue(sep, []) + sep + x + sep + y + sep + z;
    }
  }

  lemma BorderThree(p: nat, q: nat, r: nat)
    ensures Border([p, q, r]) == "+" + Repeat('-', p) + "+" + Repeat('-', q) + "+" + Repeat('-', r) + "+"
  {
    assert Dashes([p, q, r]) == [Repeat('-', p), Repeat('-', q), Repeat('-', r)];
    RepeatWithValueThree("+", Repeat('-', p), Repeat('-', q), Repeat('-', r));
  }

  lemma RowLineThree(cells: seq<string>, ws: seq<nat>, a: Alignment, p0: string, p1: string, p2: string)
    requires |cells| == |ws| == 3
    requires |cells[0]| <= ws[0] && |cells[1]| <= ws[1] && |cells[2]| <= ws[2]
    requires Pad(cells[0], ws[0], a) == p0
    requires Pad(cells[1], ws[1], a) == p1
    requires Pad(cells[2], ws[2], a) == p2
    ensures CellsFit(cells, ws)
    ensures RowLine(cells, ws, a) == "|" + p0 + "|" + p1 + "|" + p2 + "|"
  {
    assert PaddedCells(cells, ws, a) == [p0, p1, p2];
    RepeatWithValueThree("|", p0, p1, p2);
  }

  lemma ConcatThree(x: string, y: string, z: string)
    ensures Concat([x, y, z]) == x + y + z
  {
    assert [x, y, z][1..] == [y, z];
    assert [y, z][1..] == [z];
    assert [z][1..] == [];
    calc {
      Concat([x, y, z]);
      x + Concat([y, z]);
      x + (y + Concat([z]));
      x + (y + (z + Concat([])));
    }
  }

  lemma SumThree(p: nat, q: nat, r: nat)
    ensures Sum([p, q, r]) == p + q + r
  {
    assert [p, q, r][..2] == [p, q];
    assert [p, q][..1] == [p];
    assert [p][..0] == [];
    calc {
      Sum([p, q, r]);
      Sum([p, q]) + r;
      Sum([p]) + q + r;
      Sum([]) + p + q + r;
    }
  }

  /** A centred cell, given how its blanks split. */
  lemma CenterPadOf(text: string, width: nat, l: nat, r: nat, padded: string)
    requires |text| + l + r == width && l == (width - |text|) / 2
    requires padded == Spaces(l) + text + Spaces(r)
    ensures Pad(text, width, AlignCenter) == padded
  {
  }

  /**
    Each expected line, read as the padded cells between delimiters. These
    literal equalities are kept in lemmas of their own because comparing
    several long string literals in one proof is costly for the verifier.
   */
  lemma BorderTextParts()
    ensures "+" + "------" + "+" + "---------" + "+" + "------------" + "+" + "\n" == BorderText
  {
  }

  lemma HeaderRowTextParts()
    ensures "|" + "  Id  " + "|" + "  Count  " + "|" + " Timestamp  " + "|" + "\n" == HeaderRowText
  {
  }

  lemma SampleRowTextParts()
    ensures "|" + "  12  " + "|" + "   10    " + "|" + " 1461910429 " + "|" + "\n" == SampleRowText
  {
  }

  lemma TableRowText0Parts()
    ensures "|" + "  1   " + "|" + "   11    " + "|" + " 1461910429 " + "|" + "\n" == TableRowText0
  {
  }

  lemma TableRowText1Parts()
    ensures "|" + "  2   " + "|" + "   12    " + "|" + " 1461910429 " + "|" + "\n" == TableRowText1
  {
  }

  lemma TableRowText2Parts()
    ensures "|" + " 1000 " + "|" + " 999999  " + "|" + " 1461910429 " + "|" + "\n" == TableRowText2
  {
  }

  lemma SummaryText0Parts()
    ensures "|" + "Id's: 3" + Spaces(22) + "|\n" == SummaryText0
  {
  }

  lemma SummaryText1Parts()
    ensures "|" + "Count: 1000022" + Spaces(15) + "|\n" == SummaryText1
  {
  }

  lemma BorderOfTest(ws: seq<nat>)
    requires ws == [6, 9, 12]
    ensures Border(ws) + "\n" == BorderText
  {
    BorderThree(6, 9, 12);
    assert Repeat('-', 6) == "------";
    assert Repeat('-', 9) == "---------";
    assert Repeat('-', 12) == "------------";
    BorderTextParts();
  }

  lemma HeaderRowLine(cells: seq<string>, ws: seq<nat>)
    requires cells == Headers && ws == [6, 9, 12]
    ensures CellsFit(cells, ws)
    ensures RowLine(cells, ws, AlignCenter) == "|" + "  Id  " + "|" + "  Count  " + "|" + " Timestamp  " + "|"
  {
    CenterPadOf("Id", 6, 2, 2, "  Id  ");
    CenterPadOf("Count", 9, 2, 2, "  Count  ");
    CenterPadOf("Timestamp", 12, 1, 2, " Timestamp  ");
    RowLineThree(cells, ws, AlignCenter, "  Id  ", "  Count  ", " Timestamp  ");
  }

  lemma SampleRowLine(cells: seq<string>, ws: seq<nat>)
    requires cells == ["12", "10", "1461910429"] && ws == [6, 9, 12]
    ensures CellsFit(cells, ws)
    ensures RowLine(cells, ws, AlignCenter) == "|" + "  12  " + "|" + "   10    " + "|" + " 1461910429 " + "|"
  {
    CenterPadOf("12", 6, 2, 2, "  12  ");
    CenterPadOf("10", 9, 3, 4, "   10    ");
    CenterPadOf("1461910429", 12, 1, 1, " 1461910429 ");
    RowLineThree(cells, ws, AlignCenter, "  12  ", "   10    ", " 1461910429 ");
  }

  lemma TableRowLine0(cells: seq<string>, ws: seq<nat>)
    requires cells == TableRows[0] && ws == [6, 9, 12]
    ensures CellsFit(cells, ws)
    ensures RowLine(cells, ws, AlignCenter) == "|" + "  1   " + "|" + "   11    " + "|" + " 1461910429 " + "|"
  {
    CenterPadOf("1", 6, 2, 3, "  1   ");
    CenterPadOf("11", 9, 3, 4, "   11    ");
    CenterPadOf("1461910429", 12, 1, 1, " 1461910429 ");
    RowLineThree(cells, ws, AlignCenter, "  1   ", "   11    ", " 1461910429 ");
  }

  lemma TableRowLine1(cells: seq<string>, ws: seq<nat>)
    requires cells == TableRows[1] && ws == [6, 9, 12]
    ensures CellsFit(cells, ws)
    ensures RowLine(cells, ws, AlignCenter) == "|" + "  2   " + "|" + "   12    " + "|" + " 1461910429 " + "|"
  {
    CenterPadOf("2", 6, 2, 3, "  2   ");
    CenterPadOf("12", 9, 3, 4, "   12    ");
    CenterPadOf("1461910429", 12, 1, 1, " 1461910429 ");
    RowLineThree(cells, ws, AlignCenter, "  2   ", "   12    ", " 1461910429 ");
  }

  lemma TableRowLine2(cells: seq<string>, ws: seq<nat>)
    requires cells == TableRows[2] && ws == [6, 9, 12]
    ensures CellsFit(cells, ws)
    ensures RowLine(cells, ws, AlignCenter) == "|" + " 1000 " + "|" + " 999999  " + "|" + " 1461910429 " + "|"
  {
    CenterPadOf("1000", 6, 1, 1, " 1000 ");
    CenterPadOf("999999", 9, 1, 2, " 999999  ");
    CenterPadOf("1461910429", 12, 1, 1, " 1461910429 ");
    RowLineThree(cells, ws, AlignCenter, " 1000 ", " 999999  ", " 1461910429 ");
  }

  lemma TableRowLines(w: Writer, rows: seq<seq<string>>)
    requires w == TestWriter() && rows == TableRows
    ensures forall k :: 0 <= k < |rows| ==> |rows[k]| == |w.widths| && CellsFit(rows[k], w.Columns())
    ensures Concat(RowLines(w, rows, AlignCenter)) == TableRowText0 + TableRowText1 + TableRowText2
  {
    TableRowLine0(rows[0], w.Columns());
    TableRowLine1(rows[1], w.Columns());
    TableRowLine2(rows[2], w.Columns());
    TableRowText0Parts();
    TableRowText1Parts();
    TableRowText2Parts();
    var lines := RowLines(w, rows, AlignCenter);
    assert lines == [lines[0], lines[1], lines[2]];
    ConcatThree(lines[0], lines[1], lines[2]);
  }

  /** Construction succeeds for widths 6, 9, 12. */
  lemma TestInit()
    ensures NewTableWriter(Headers, Widths).Ok?
  {

  }

  /** Construction fails for widths 6, 9, 8: `Timestamp` needs 10. */
  lemma TestInvalidInit()
    ensures NewTableWriter(Headers, [6, 9, 8]) == Err(ColumnTooNarrow(2, "Timestamp", 8, 10))
  {
  }

  /** Centring splits the blanks with the odd one on the right. */
  lemma CenterPaddingVectors()
    ensures Pad("Timestamp", 12, AlignCenter) == " Timestamp  "
    ensures Pad("1", 6, AlignCenter) == "  1   "
    ensures Pad("11", 9, AlignCenter) == "   11    "
    ensures Pad("999999", 9, AlignCenter) == " 999999  "
  {
    CenterPadOf("Timestamp", 12, 1, 2, " Timestamp  ");
    CenterPadOf("1", 6, 2, 3, "  1   ");
    CenterPadOf("11", 9, 3, 4, "   11    ");
    CenterPadOf("999999", 9, 1, 2, " 999999  ");
  }

  // The lemmas below take the writer as a parameter equal to `TestWriter()`
  // rather than calling it inline, which keeps the verifier from unfolding
  // every definition on the literal configuration.

  lemma TestPrintFooter(w: Writer)
    requires w == TestWriter()
    ensures PrintFooter(w) == BorderText
  {
    BorderOfTest(w.Columns());
  }

  lemma TestPrintHeader(w: Writer)
    requires w == TestWriter()
    ensures PrintHeader(w) == HeaderText
  {
    BorderOfTest(w.Columns());
    HeaderRowLine(w.headers, w.Columns());
    HeaderRowTextParts();
  }

  lemma TestPrintRow(w: Writer, cells: seq<string>)
    requires w == TestWriter()
    requires cells == ["12", "10", "1461910429"]
    ensures PrintRow(w, cells, AlignCenter) == Emitted(SampleRowText, None)
  {
    SampleRowLine(cells, w.Columns());
    SampleRowTextParts();
  }

  /** The separator goes before each value and not after the last. */
  lemma TestPrintRows()
    ensures RepeatWithValue("|", ["12", "10", "1461910429"]) == "|12|10|1461910429"
  {
    RepeatWithValueThree("|", "12", "10", "1461910429");
  }

  lemma TestPrintTable(w: Writer, rows: seq<seq<string>>)
    requires w == TestWriter()
    requires rows == TableRows
    ensures PrintTable(w, rows, AlignCenter) == Emitted(TableText, None)
  {
    TableRowLines(w, rows);
    PrintTableComposition(w, rows, AlignCenter);
    TestPrintHeader(w);
    TestPrintFooter(w);
  }

  /** `1234567` is seven characters for a column of six: an error, nothing written. */
  lemma TestInvalidRow(w: Writer, cells: seq<string>)
    requires w == TestWriter()
    requires cells == ["1234567", "12", "1461910429"]
    ensures PrintRow(w, cells, AlignRight) == Emitted("", Some(RowOverflow(0, "1234567", 6)))
  {
  }

  /** The summary rows span 29 characters and keep their text flush left. */
  lemma TestSummaryRows(w: Writer)
    requires w == TestWriter()
    ensures PrintRowAsOneColumn(w, "Id's: 3", AlignRight) == Emitted(SummaryText0, None)
    ensures PrintRowAsOneColumn(w, "Count: 1000022", AlignRight) == Emitted(SummaryText1, None)
  {
    SumThree(6, 9, 12);
    SummaryText0Parts();
    SummaryText1Parts();
  }

  /** Right alignment requested, yet the summary text sits against the left border. */
  lemma TestSummaryTable(w: Writer, rows: seq<seq<string>>)
    requires w == TestWriter()
    requires rows == TableRows
    ensures PrintTable(w, rows, AlignCenter).text
        + PrintRowAsOneColumn(w, "Id's: 3", AlignRight).text
        + PrintRowAsOneColumn(w, "Count: 1000022", AlignRight).text
        + PrintFooter(w)
      == TableText + SummaryText0 + SummaryText1 + BorderText
  {
    TestPrintTable(w, rows);
    TestSummaryRows(w);
    TestPrintFooter(w);
  }
}
