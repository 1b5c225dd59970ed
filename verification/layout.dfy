/**
  Line builders of the table: the border rule, the content row and the
  merged row that spans every column. Each line is a list of fields
  framed by a delimiter character, `+` for borders and `|` for rows.
 */
module Layout {
  import opened Text
  import opened Align

  /** Sum of the column widths. */
  function Sum(ws: seq<nat>): nat
  {
    if |ws| == 0 then 0 else Sum(ws[..|ws| - 1]) + ws[|ws| - 1]
  }

  /**
    Position of the delimiter in front of column `i` (or, for
    `i == |ws|`, of the closing delimiter): the widths of the columns
    before it plus one delimiter per column before it.
   */
  function ColumnOffset(ws: seq<nat>, i: nat): nat
    requires i <= |ws|
  {
    Sum(ws[..i]) + i
  }

  /** Length of every border and content line, without its newline. */
  function LineLength(ws: seq<nat>): nat
  {
    Sum(ws) + |ws| + 1
  }

  /**
    The separator followed by each item in turn, built the way a loop
    appending `sep + item` to an accumulator builds it: there is a
    separator before every item and none after the last.
   */
  function RepeatWithValue(sep: string, items: seq<string>): (r: string)
    ensures |items| == 0 ==> r == ""
  {
    if |items| == 0 then ""
    else RepeatWithValue(sep, items[..|items| - 1]) + sep + items[|items| - 1]
  }

  /**
    Read from the front, the joined string is the separator, the first
    item, then the join of the remaining items.
   */
  lemma {:induction false} RepeatWithValueFront(sep: string, items: seq<string>)
    requires |items| > 0
    ensures RepeatWithValue(sep, items) == sep + items[0] + RepeatWithValue(sep, items[1..])
    decreases |items|
  {
    var n := |items|;
    if n == 1 {
      assert items[..0] == [] && items[1..] == [];
    } else {
      var init, tail := items[..n - 1], items[1..];
      RepeatWithValueFront(sep, init);
      assert init[0] == items[0];
      assert init[1..] == tail[..|tail| - 1];
      assert tail[|tail| - 1] == items[n - 1];
      calc {
        RepeatWithValue(sep, items);
        RepeatWithValue(sep, init) + sep + items[n - 1];
        sep + items[0] + RepeatWithValue(sep, init[1..]) + sep + items[n - 1];
        sep + items[0] + (RepeatWithValue(sep, tail[..|tail| - 1]) + sep + tail[|tail| - 1]);
        sep + items[0] + RepeatWithValue(sep, tail);
      }
    }
  }

  /** Length of the joined string: one separator and one item per item. */
  lemma {:induction false} RepeatWithValueLength(sep: string, items: seq<string>)
    ensures |RepeatWithValue(sep, items)| == |items| * |sep| + TotalLength(items)
    decreases |items|
  {
    if |items| > 0 {
      RepeatWithValueFront(sep, items);
      RepeatWithValueLength(sep, items[1..]);
    }
  }

  /** The fields joined by `c`, with `c` also before the first and after the last. */
  function Framed(c: char, fields: seq<string>): string
  {
    RepeatWithValue([c], fields) + [c]
  }

  /** Fields that exactly fill their columns. */
  predicate FitsExactly(fields: seq<string>, ws: seq<nat>)
  {
    |fields| == |ws| && forall i :: 0 <= i < |fields| ==> |fields[i]| == ws[i]
  }

  /** Offsets of the first columns do not depend on the columns after them. */
  lemma ColumnOffsetPrefix(ws: seq<nat>, m: nat, i: nat)
    requires i <= m <= |ws|
    ensures ColumnOffset(ws[..m], i) == ColumnOffset(ws, i)
  {
    assert ws[..m][..i] == ws[..i];
  }

  /** A framed line is the line of all but the last field, then that field and `c`. */
  lemma FramedSnoc(c: char, fields: seq<string>)
    requires |fields| > 0
    ensures Framed(c, fields) == Framed(c, fields[..|fields| - 1]) + fields[|fields| - 1] + [c]
  {
  }

  /** A framed line whose fields exactly fill their columns has the table's line length. */
  lemma {:induction false} FramedLength(c: char, fields: seq<string>, ws: seq<nat>)
    requires FitsExactly(fields, ws)
    ensures |Framed(c, fields)| == LineLength(ws)
    decreases |ws|
  {
    var n := |ws|;
    if n == 0 {
      assert Framed(c, fields) == [c];
    } else {
      FramedLength(c, fields[..n - 1], ws[..n - 1]);
      FramedSnoc(c, fields);
      assert ws[..n - 1] + [ws[n - 1]] == ws;
    }
  }

  /** A framed line whose fields exactly fill their columns has the delimiter `c` at every column offset. */
  lemma {:induction false} FramedDelimiters(c: char, fields: seq<string>, ws: seq<nat>, i: nat)
    requires FitsExactly(fields, ws)
    requires i <= |ws|
    ensures ColumnOffset(ws, i) < |Framed(c, fields)|
    ensures Framed(c, fields)[ColumnOffset(ws, i)] == c
    decreases |ws|
  {
    var n := |ws|;
    FramedLength(c, fields, ws);
    if i < n {
      var fs', ws' := fields[..n - 1], ws[..n - 1];
      ColumnOffsetPrefix(ws, n - 1, i);
      FramedSnoc(c, fields);
      if i < n - 1 {
        FramedDelimiters(c, fs', ws', i);
      } else {
        FramedLength(c, fs', ws');
      }
    } else {
      assert ws[..n] == ws;
    }
  }

  /** A framed line whose fields exactly fill their columns holds field `i` right after the delimiter in front of column `i`. */
  lemma {:induction false} FramedField(c: char, fields: seq<string>, ws: seq<nat>, i: nat)
    requires FitsExactly(fields, ws)
    requires i < |ws|
    ensures ColumnOffset(ws, i) + 1 + ws[i] <= |Framed(c, fields)|
    ensures Framed(c, fields)[ColumnOffset(ws, i) + 1 .. ColumnOffset(ws, i) + 1 + ws[i]] == fields[i]
    decreases |ws|
  {
    var n := |ws|;
    var fs', ws' := fields[..n - 1], ws[..n - 1];
    var r, r' := Framed(c, fields), Framed(c, fs');
    FramedLength(c, fields, ws);
    FramedLength(c, fs', ws');
    FramedSnoc(c, fields);
    ColumnOffsetPrefix(ws, n - 1, i);
    var o := ColumnOffset(ws, i);
    if i < n - 1 {
      FramedField(c, fs', ws', i);
      assert r[o + 1 .. o + 1 + ws[i]] == r'[o + 1 .. o + 1 + ws[i]];
    } else {
      ColumnOffsetPrefix(ws, n - 1, n - 1);
      assert o + 1 == |r'|;
      assert r[o + 1 .. o + 1 + ws[i]] == fields[n - 1];
    }
  }

  /**
    A framed line whose fields exactly fill their columns has the line
    length of the table, the delimiter at every column offset, and field
    `i` right after the delimiter in front of column `i`.
   */
  lemma FramedLayout(c: char, fields: seq<string>, ws: seq<nat>)
    requires FitsExactly(fields, ws)
    ensures var r := Framed(c, fields);
      && |r| == LineLength(ws)
      && (forall i :: 0 <= i <= |ws| ==> ColumnOffset(ws, i) < |r| && r[ColumnOffset(ws, i)] == c)
      && (forall i :: 0 <= i < |ws| ==>
            ColumnOffset(ws, i) + 1 + ws[i] <= |r| &&
            r[ColumnOffset(ws, i) + 1 .. ColumnOffset(ws, i) + 1 + ws[i]] == fields[i])
  {
    FramedLength(c, fields, ws);
    forall i | 0 <= i <= |ws|
      ensures ColumnOffset(ws, i) < |Framed(c, fields)| && Framed(c, fields)[ColumnOffset(ws, i)] == c
    {
      FramedDelimiters(c, fields, ws, i);
    }
    forall i | 0 <= i < |ws|
      ensures ColumnOffset(ws, i) + 1 + ws[i] <= |Framed(c, fields)|
      ensures Framed(c, fields)[ColumnOffset(ws, i) + 1 .. ColumnOffset(ws, i) + 1 + ws[i]] == fields[i]
    {
      FramedField(c, fields, ws, i);
    }
  }

  /** The dash runs that fill the columns of a border, one per column. */
  function Dashes(ws: seq<nat>): (fs: seq<string>)
    ensures FitsExactly(fs, ws)
    ensures forall i, k :: 0 <= i < |fs| && 0 <= k < |fs[i]| ==> fs[i][k] == '-'
  {
    seq(|ws|, i requires 0 <= i < |ws| => Repeat('-', ws[i]))
  }

  /** The horizontal rule: `+`, then for each column its width in dashes and a `+`. */
  function Border(ws: seq<nat>): string
  {
    Framed('+', Dashes(ws))
  }

  /** Every cell fits in its column. */
  predicate CellsFit(cells: seq<string>, ws: seq<nat>)
  {
    |cells| == |ws| && forall i :: 0 <= i < |cells| ==> |cells[i]| <= ws[i]
  }

  /** Each cell padded to its column width with the given alignment. */
  function PaddedCells(cells: seq<string>, ws: seq<nat>, a: Alignment): (fs: seq<string>)
    requires CellsFit(cells, ws)
    ensures FitsExactly(fs, ws)
  {
    seq(|cells|, i requires 0 <= i < |cells| =>
      PadLayout(cells[i], ws[i], a); Pad(cells[i], ws[i], a))
  }

  /** One content line: `|`, then each padded cell followed by `|`. */
  function RowLine(cells: seq<string>, ws: seq<nat>, a: Alignment): string
    requires CellsFit(cells, ws)
  {
    Framed('|', PaddedCells(cells, ws, a))
  }

  /**
    The border has the table's line length, a `+` at every column offset
    and only dashes inside the columns.
   */
  lemma BorderLayout(ws: seq<nat>)
    ensures var r := Border(ws);
      && |r| == LineLength(ws)
      && (forall i :: 0 <= i <= |ws| ==> ColumnOffset(ws, i) < |r| && r[ColumnOffset(ws, i)] == '+')
      && (forall i :: 0 <= i < |ws| ==>
            ColumnOffset(ws, i) + 1 + ws[i] <= |r| &&
            r[ColumnOffset(ws, i) + 1 .. ColumnOffset(ws, i) + 1 + ws[i]] == Repeat('-', ws[i]))
  {
    FramedLayout('+', Dashes(ws), ws);
  }

  /**
    A content line is exactly as long as the border, has a `|` wherever
    the border has a `+`, and between two delimiters holds the padded cell
    of that column, so the columns of rows and borders line up.
   */
  lemma RowLineLayout(cells: seq<string>, ws: seq<nat>, a: Alignment)
    requires CellsFit(cells, ws)
    ensures var r := RowLine(cells, ws, a);
      && |r| == |Border(ws)|
      && (forall i :: 0 <= i <= |ws| ==> ColumnOffset(ws, i) < |r| && r[ColumnOffset(ws, i)] == '|')
      && (forall i :: 0 <= i < |ws| ==>
            ColumnOffset(ws, i) + 1 + ws[i] <= |r| &&
            r[ColumnOffset(ws, i) + 1 .. ColumnOffset(ws, i) + 1 + ws[i]] == Pad(cells[i], ws[i], a))
  {
    FramedLayout('|', PaddedCells(cells, ws, a), ws);
    BorderLayout(ws);
  }

  /**
    `t` is a newline-terminated border for the columns `ws`: as long as a
    border plus its newline, a `+` at every column offset, and the
    column's width in dashes inside each column.
   */
  predicate BorderTextShape(t: string, ws: seq<nat>)
  {
    && |t| == LineLength(ws) + 1
    && t[|t| - 1] == '\n'
    && (forall i :: 0 <= i <= |ws| ==> ColumnOffset(ws, i) < |t| - 1 && t[ColumnOffset(ws, i)] == '+')
    && (forall i :: 0 <= i < |ws| ==>
          ColumnOffset(ws, i) + 1 + ws[i] < |t| &&
          t[ColumnOffset(ws, i) + 1 .. ColumnOffset(ws, i) + 1 + ws[i]] == Repeat('-', ws[i]))
  }

  /** The border keeps its layout once its newline is appended. */
  lemma BorderTextLayout(ws: seq<nat>)
    ensures BorderTextShape(Border(ws) + "\n", ws)
  {
    BorderLayout(ws);
    NewlineKeepsLine(Border(ws));
  }

  /**
    `t` is a newline-terminated content line for the columns `ws`: as
    long as a border plus its newline, a `|` at every column offset, and
    each cell padded to its column between two of them.
   */
  predicate RowTextShape(t: string, cells: seq<string>, ws: seq<nat>, a: Alignment)
    requires CellsFit(cells, ws)
  {
    && |t| == LineLength(ws) + 1
    && t[|t| - 1] == '\n'
    && (forall i :: 0 <= i <= |ws| ==> ColumnOffset(ws, i) < |t| - 1 && t[ColumnOffset(ws, i)] == '|')
    && (forall i :: 0 <= i < |ws| ==>
          ColumnOffset(ws, i) + 1 + ws[i] < |t| &&
          t[ColumnOffset(ws, i) + 1 .. ColumnOffset(ws, i) + 1 + ws[i]] == Pad(cells[i], ws[i], a))
  }

  /** The row line keeps its layout once its newline is appended. */
  lemma RowTextLayout(cells: seq<string>, ws: seq<nat>, a: Alignment)
    requires CellsFit(cells, ws)
    ensures RowTextShape(RowLine(cells, ws, a) + "\n", cells, ws, a)
  {
    RowLineLayout(cells, ws, a);
    BorderLayout(ws);
    NewlineKeepsLine(RowLine(cells, ws, a));
  }

  /**
    Each cell can be read back out of its row line: strip the blanks
    between the two delimiters of its column.
   */
  lemma RowLineCellRoundTrip(cells: seq<string>, ws: seq<nat>, a: Alignment, i: nat)
    requires CellsFit(cells, ws)
    requires i < |ws|
    requires Unpadded(cells[i])
    ensures var r, o := RowLine(cells, ws, a), ColumnOffset(ws, i);
      o + 1 + ws[i] <= |r| && Strip(r[o + 1 .. o + 1 + ws[i]]) == cells[i]
  {
    RowLineLayout(cells, ws, a);
    PadStripRoundTrip(cells[i], ws[i], a);
  }

  /**
    Width of the single field of a merged row: the column widths plus the
    inner delimiters, which become content space.
   */
  function MergedWidth(ws: seq<nat>): nat
    requires |ws| >= 1
  {
    Sum(ws) + |ws| - 1
  }

  /**
    The merged row: `|`, the text flush left and filled with blanks to the
    merged width, then `|`. The requested alignment plays no part.
   */
  function MergedLine(text: string, ws: seq<nat>, a: Alignment): string
    requires |ws| >= 1
    requires |text| <= MergedWidth(ws)
  {
    "|" + Pad(text, MergedWidth(ws), AlignLeft) + "|"
  }

  /**
    A merged row is exactly as long as the border, its text starts right
    after the opening `|`, and only blanks follow it up to the closing `|`,
    whichever alignment was asked for.
   */
  lemma MergedLineLayout(text: string, ws: seq<nat>, a: Alignment)
    requires |ws| >= 1
    requires |text| <= MergedWidth(ws)
    ensures var r := MergedLine(text, ws, a);
      && |r| == |Border(ws)|
      && r == "|" + text + Spaces(MergedWidth(ws) - |text|) + "|"
      && r == MergedLine(text, ws, AlignLeft)
  {
    BorderLayout(ws);
    PadLayout(text, MergedWidth(ws), AlignLeft);
    PadFlush(text, MergedWidth(ws));
  }
}
