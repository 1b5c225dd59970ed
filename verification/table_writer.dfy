/**
  The table writer: a validated column configuration and the operations
  that print a header, a footer, one row, a whole table or a merged
  summary row. The output sink is represented by the text each call
  writes to it; a sequence of calls writes the concatenation of their
  texts.
 */
module TableWriter {
  import opened Text
  import opened Align
  import opened Layout

  datatype Option<T> = None | Some(value: T)

  datatype Result<T, E> = Ok(value: T) | Err(error: E)

  /** The errors the writer reports. */
  datatype Error =
    | ColumnCountMismatch(headerCount: nat, widthCount: nat)
    | NoColumns
    | ColumnTooNarrow(column: nat, header: string, width: int, minWidth: nat)
    | RowOverflow(column: nat, text: string, width: int)
    | MergedRowOverflow(text: string, width: int)

  /** What one call writes to the sink, and the error it returns, if any. */
  datatype Emitted = Emitted(text: string, err: Option<Error>)

  /** The configuration a writer holds: column headers and widths, in order. */
  datatype Writer = Writer(headers: seq<string>, widths: seq<int>)
  {
    /** What construction establishes and every operation relies on. */
    predicate Valid()
    {
      && |headers| == |widths| >= 1
      && forall i :: 0 <= i < |widths| ==> widths[i] >= |headers[i]| + 1
    }

    /** The widths, known to be natural numbers once the writer is valid. */
    function Columns(): (ws: seq<nat>)
      requires Valid()
      ensures ws == widths
    {
      widths
    }
  }

  /**
    The first column, from `from` on, whose width is below its text's
    length plus `slack` (one blank for headers, none for row cells).
   */
  function FirstTooNarrow(texts: seq<string>, widths: seq<int>, slack: nat, from: nat): (r: Option<nat>)
    requires |texts| == |widths|
    requires from <= |texts|
    ensures r.None? <==> forall j :: from <= j < |texts| ==> widths[j] >= |texts[j]| + slack
    ensures r.Some? ==> from <= r.value < |texts| && widths[r.value] < |texts[r.value]| + slack
    ensures r.Some? ==> forall j :: from <= j < r.value ==> widths[j] >= |texts[j]| + slack
    decreases |texts| - from
  {
    if from == |texts| then None
    else if widths[from] < |texts[from]| + slack then Some(from)
    else FirstTooNarrow(texts, widths, slack, from + 1)
  }

  /**
    Construction (`NewTableWriter`, `NewTableWriterWithWriter`): accepts
    the configuration only if there is a width per header, at least one
    column, and every column holds its header plus one blank; otherwise no
    writer, and an error naming the problem.
   */
  function NewTableWriter(headers: seq<string>, widths: seq<int>): (r: Result<Writer, Error>)
    ensures r.Ok? <==> Writer(headers, widths).Valid()
    ensures r.Ok? ==> r.value == Writer(headers, widths)
    ensures r.Err? && |headers| != |widths| ==> r.error == ColumnCountMismatch(|headers|, |widths|)
    ensures r.Err? && |headers| == |widths| == 0 ==> r.error == NoColumns
    ensures r.Err? && |headers| == |widths| > 0 ==>
      && r.error.ColumnTooNarrow?
      && r.error.column < |widths|
      && r.error.header == headers[r.error.column]
      && r.error.width == widths[r.error.column] < r.error.minWidth == |headers[r.error.column]| + 1
      && forall j :: 0 <= j < r.error.column ==> widths[j] >= |headers[j]| + 1
  {
    if |headers| != |widths| then Err(ColumnCountMismatch(|headers|, |widths|))
    else if |headers| == 0 then Err(NoColumns)
    else match FirstTooNarrow(headers, widths, 1, 0)
      case Some(i) => Err(ColumnTooNarrow(i, headers[i], widths[i], |headers[i]| + 1))
      case None => Ok(Writer(headers, widths))
  }

  /** `PrintFooter`: one border line. */
  function PrintFooter(w: Writer): (r: string)
    requires w.Valid()
    ensures |r| == LineLength(w.Columns()) + 1
    ensures r[|r| - 1] == '\n'
  {
    BorderLayout(w.Columns());
    Border(w.Columns()) + "\n"
  }

  /**
    The footer is the border line: a `+` at every column offset, the
    column's width in dashes inside each column, and a newline last.
   */
  lemma PrintFooterLayout(w: Writer)
    requires w.Valid()
    ensures BorderTextShape(PrintFooter(w), w.Columns())
  {
    BorderTextLayout(w.Columns());
  }

  /**
    `PrintRow`: the bordered line of the cells, all padded with the given
    alignment, if every cell fits its column; otherwise nothing is
    written and the error names the first cell that does not fit.
   */
  function PrintRow(w: Writer, cells: seq<string>, a: Alignment): (r: Emitted)
    requires w.Valid()
    requires |cells| == |w.widths|
    ensures r.err.None? <==> CellsFit(cells, w.Columns())
    ensures r.err.Some? ==>
      && r.text == ""
      && r.err.value.RowOverflow?
      && r.err.value.column < |cells|
      && r.err.value.text == cells[r.err.value.column]
      && r.err.value.width == w.widths[r.err.value.column] < |r.err.value.text|
      && forall j :: 0 <= j < r.err.value.column ==> |cells[j]| <= w.widths[j]
  {
    match FirstTooNarrow(cells, w.widths, 0, 0)
    case Some(i) => Emitted("", Some(RowOverflow(i, cells[i], w.widths[i])))
    case None => Emitted(RowLine(cells, w.Columns(), a) + "\n", None)
  }

  /** A row that fits writes its row line and a newline. */
  lemma PrintRowFits(w: Writer, cells: seq<string>, a: Alignment)
    requires w.Valid()
    requires |cells| == |w.widths|
    requires CellsFit(cells, w.Columns())
    ensures PrintRow(w, cells, a) == Emitted(RowLine(cells, w.Columns(), a) + "\n", None)
  {
  }

  /**
    A row that fits is written as one line exactly as long as the footer:
    a `|` at every column offset, each cell padded to its column between
    two of them, and a newline at the end.
   */
  lemma PrintRowLayout(w: Writer, cells: seq<string>, a: Alignment)
    requires w.Valid()
    requires |cells| == |w.widths|
    requires CellsFit(cells, w.Columns())
    ensures RowTextShape(PrintRow(w, cells, a).text, cells, w.Columns(), a)
    ensures |PrintRow(w, cells, a).text| == |PrintFooter(w)|
  {
    PrintRowFits(w, cells, a);
    RowTextLayout(cells, w.Columns(), a);
  }

  /**
    `PrintHeader`: a border, the headers centred in their columns, and a
    second border.
   */
  function PrintHeader(w: Writer): string
    requires w.Valid()
  {
    var border := Border(w.Columns()) + "\n";
    border + (RowLine(w.headers, w.Columns(), AlignCenter) + "\n") + border
  }

  /**
    The header never fails: it is the footer's border line, what
    `PrintRow` writes for the headers centred, and the border again; each
    of the three lines is as long as the border and ends in a newline.
   */
  lemma PrintHeaderLines(w: Writer)
    requires w.Valid()
    ensures var row := PrintRow(w, w.headers, AlignCenter);
      && row.err.None?
      && PrintHeader(w) == PrintFooter(w) + row.text + PrintFooter(w)
      && |row.text| == |PrintFooter(w)|
      && row.text[|row.text| - 1] == '\n'
  {
    assert CellsFit(w.headers, w.Columns());
    RowLineLayout(w.headers, w.Columns(), AlignCenter);
  }

  /**
    The rows written in order until one fails; the failing row writes
    nothing, and no later row is written.
   */
  function PrintRows(w: Writer, rows: seq<seq<string>>, a: Alignment): Emitted
    requires w.Valid()
    requires forall k :: 0 <= k < |rows| ==> |rows[k]| == |w.widths|
  {
    if |rows| == 0 then Emitted("", None)
    else
      var first := PrintRow(w, rows[0], a);
      if first.err.Some? then first
      else
        var rest := PrintRows(w, rows[1..], a);
        Emitted(first.text + rest.text, rest.err)
  }

  /**
    `PrintTable`: the header, then each row in turn, then the footer. A
    row that does not fit stops the table there: the lines already
    written stay written, the footer is not written and the row's error is
    returned.
   */
  function PrintTable(w: Writer, rows: seq<seq<string>>, a: Alignment): Emitted
    requires w.Valid()
    requires forall k :: 0 <= k < |rows| ==> |rows[k]| == |w.widths|
  {
    var body := PrintRows(w, rows, a);
    if body.err.Some? then Emitted(PrintHeader(w) + body.text, body.err)
    else Emitted(PrintHeader(w) + body.text + PrintFooter(w), None)
  }

  /**
    The newline-terminated row lines of rows that all fit; `RowLinesAreRows`
    shows each is what `PrintRow` writes for its row.
   */
  function RowLines(w: Writer, rows: seq<seq<string>>, a: Alignment): (lines: seq<string>)
    requires w.Valid()
    requires forall k :: 0 <= k < |rows| ==> CellsFit(rows[k], w.Columns())
    ensures |lines| == |rows|
  {
    seq(|rows|, k requires 0 <= k < |rows| => RowLine(rows[k], w.Columns(), a) + "\n")
  }

  lemma {:induction false} PrintRowsAllFit(w: Writer, rows: seq<seq<string>>, a: Alignment)
    requires w.Valid()
    requires forall k :: 0 <= k < |rows| ==> |rows[k]| == |w.widths| && CellsFit(rows[k], w.Columns())
    ensures PrintRows(w, rows, a) == Emitted(Concat(RowLines(w, rows, a)), None)
    decreases |rows|
  {
    if |rows| > 0 {
      PrintRowsAllFit(w, rows[1..], a);
      PrintRowsCons(w, rows, a);
      RowLinesCons(w, rows, a);
    }
  }

  /** Rows are printed by printing the first row, then, if it fits, the others. */
  lemma PrintRowsCons(w: Writer, rows: seq<seq<string>>, a: Alignment)
    requires w.Valid()
    requires forall k :: 0 <= k < |rows| ==> |rows[k]| == |w.widths|
    requires |rows| > 0 && CellsFit(rows[0], w.Columns())
    ensures var rest := PrintRows(w, rows[1..], a);
      PrintRows(w, rows, a) == Emitted(PrintRow(w, rows[0], a).text + rest.text, rest.err)
  {
  }

  /** Line `k` of a list of fitting rows is what `PrintRow` writes for row `k`. */
  lemma RowLinesAreRows(w: Writer, rows: seq<seq<string>>, a: Alignment, k: nat)
    requires w.Valid()
    requires k < |rows|
    requires forall j :: 0 <= j < |rows| ==> CellsFit(rows[j], w.Columns())
    ensures RowLines(w, rows, a)[k] == PrintRow(w, rows[k], a).text
  {
    PrintRowFits(w, rows[k], a);
  }

  /** Dropping the first row drops the first line. */
  lemma RowLinesTail(w: Writer, rows: seq<seq<string>>, a: Alignment)
    requires w.Valid()
    requires |rows| > 0
    requires forall k :: 0 <= k < |rows| ==> CellsFit(rows[k], w.Columns())
    ensures RowLines(w, rows, a)[1..] == RowLines(w, rows[1..], a)
  {
  }

  /** The lines of a list of rows are the first row's line, then the others'. */
  lemma RowLinesCons(w: Writer, rows: seq<seq<string>>, a: Alignment)
    requires w.Valid()
    requires |rows| > 0
    requires forall k :: 0 <= k < |rows| ==> CellsFit(rows[k], w.Columns())
    ensures Concat(RowLines(w, rows, a)) == PrintRow(w, rows[0], a).text + Concat(RowLines(w, rows[1..], a))
  {
    var lines := RowLines(w, rows, a);
    RowLinesAreRows(w, rows, a, 0);
    RowLinesTail(w, rows, a);
    assert Concat(lines) == lines[0] + Concat(lines[1..]);
  }

  lemma {:induction false} PrintRowsStops(w: Writer, rows: seq<seq<string>>, a: Alignment, k: nat)
    requires w.Valid()
    requires forall j :: 0 <= j < |rows| ==> |rows[j]| == |w.widths|
    requires k < |rows|
    requires forall j :: 0 <= j < k ==> CellsFit(rows[j], w.Columns())
    requires !CellsFit(rows[k], w.Columns())
    ensures PrintRows(w, rows, a) == Emitted(Concat(RowLines(w, rows[..k], a)), PrintRow(w, rows[k], a).err)
    decreases k
  {
    if k == 0 {
      assert rows[..0] == [];
    } else {
      var tail, before := rows[1..], rows[..k];
      assert tail[k - 1] == rows[k];
      assert before[1..] == tail[..k - 1];
      assert before[0] == rows[0];
      assert forall j :: 0 <= j < |before| ==> CellsFit(before[j], w.Columns());
      PrintRowsStops(w, tail, a, k - 1);
      PrintRowsCons(w, rows, a);
      RowLinesCons(w, before, a);
      var first := PrintRow(w, rows[0], a).text;
      calc {
        PrintRows(w, rows, a);
        Emitted(first + PrintRows(w, tail, a).text, PrintRows(w, tail, a).err);
        Emitted(first + Concat(RowLines(w, tail[..k - 1], a)), PrintRow(w, rows[k], a).err);
        Emitted(Concat(RowLines(w, before, a)), PrintRow(w, rows[k], a).err);
      }
    }
  }

  /**
    When every row fits, the table is the header, each row's line in
    order, and one footer border, and no error is returned.
   */
  lemma PrintTableComposition(w: Writer, rows: seq<seq<string>>, a: Alignment)
    requires w.Valid()
    requires forall k :: 0 <= k < |rows| ==> |rows[k]| == |w.widths| && CellsFit(rows[k], w.Columns())
    ensures PrintTable(w, rows, a) == Emitted(PrintHeader(w) + Concat(RowLines(w, rows, a)) + PrintFooter(w), None)
  {
    PrintRowsAllFit(w, rows, a);
  }

  /**
    When row `k` is the first that does not fit, the table stops there:
    the header and the lines of the rows before `k` stay written, there is
    no footer, and the error is the one `PrintRow` reports for row `k`.
   */
  lemma PrintTableStopsAtFirstOverflow(w: Writer, rows: seq<seq<string>>, a: Alignment, k: nat)
    requires w.Valid()
    requires forall j :: 0 <= j < |rows| ==> |rows[j]| == |w.widths|
    requires k < |rows|
    requires forall j :: 0 <= j < k ==> CellsFit(rows[j], w.Columns())
    requires !CellsFit(rows[k], w.Columns())
    ensures PrintTable(w, rows, a).text == PrintHeader(w) + Concat(RowLines(w, rows[..k], a))
    ensures PrintTable(w, rows, a).err == PrintRow(w, rows[k], a).err
    ensures PrintTable(w, rows, a).err.Some?
  {
    PrintRowsStops(w, rows, a, k);
  }

  /**
    `PrintRowAsOneColumn`: one line whose single field spans every column,
    the text flush left in it whatever the alignment; a text longer than
    that field writes nothing and is an error.
   */
  function PrintRowAsOneColumn(w: Writer, text: string, a: Alignment): (r: Emitted)
    requires w.Valid()
    ensures r.err.None? <==> |text| <= MergedWidth(w.Columns())
    ensures r.err.Some? ==> r.text == "" && r.err.value == MergedRowOverflow(text, MergedWidth(w.Columns()))
    ensures r.err.None? ==>
      && |r.text| == |PrintFooter(w)|
      && r.text == "|" + text + Spaces(MergedWidth(w.Columns()) - |text|) + "|\n"
  {
    var mw := MergedWidth(w.Columns());
    if |text| > mw then Emitted("", Some(MergedRowOverflow(text, mw)))
    else
      MergedLineLayout(text, w.Columns(), a);
      Emitted(MergedLine(text, w.Columns(), a) + "\n", None)
  }
}
