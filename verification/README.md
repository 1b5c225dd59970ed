# table_writer in Dafny

A model of the Go package `table_writer`, a fixed-width ASCII table
renderer. A writer is configured with column headers and column widths.
It prints bordered lines made of `+`/`-` rules and `|`-delimited rows. Each
cell is padded with blanks to its column width, aligned left, centred or
right. The package's tests pin byte for byte the header, the footer, one
centred row, the centred three-row table, two summary rows requested
right-aligned, and `repeatWithValue` on one row; they check construction
and an overflowing row only for success or failure. The model states the
rendering rules for every input and proves those expectations from them.

Modules:

- `Text` (`text.dfy`): runs of one character, concatenation of lines,
  and trimming of blanks.
- `Align` (`align.dfy`): the alignment modes `AlignLeft`, `AlignCenter`
  and `AlignRight`, and the padding of one cell to its column width.
- `Layout` (`layout.dfy`): the line builders. These are the helper
  `repeatWithValue` (`RepeatWithValue`), the border rule, the content row
  and the merged row that spans every column. Lemmas state where each
  delimiter and each cell lands in a line.
- `TableWriter` (`table_writer.dfy`): the writer datatype and its
  operations.
  - Construction: `NewTableWriter`, which also stands for
    `NewTableWriterWithWriter`.
  - Printing: `PrintHeader`, `PrintFooter`, `PrintRow`, `PrintTable` and
    `PrintRowAsOneColumn`.
  - `PrintRow`, `PrintTable` and `PrintRowAsOneColumn` return an
    `Emitted` value. It holds the text the call writes to the writer's
    sink and the error it returns, if any.
  - `PrintHeader` and `PrintFooter` return only their text: neither can
    fail once write failures of the sink are left out.
  - Output from several calls in a row is the concatenation of their
    texts.
- `TableWriterVectors` (`table_writer_vectors.dfy`): every expectation of
  the test file stated as a lemma about the model, for headers
  `Id`/`Count`/`Timestamp` and widths 6, 9, 12.

Where the tests pin nothing, the model follows these rules:

- Construction rejects mismatched header and width counts.
- Construction rejects an empty column list.
- Construction requires each width to be at least the header's length
  plus one. The test only shows that 8 is too narrow for `Timestamp`.
- A row that does not fit its columns writes nothing and returns an error
  naming the first cell that does not fit.
- `PrintTable` stops at the first such row and does not write the footer.
- Merged rows are written flush left whatever alignment is requested, as
  the test's output shows for `AlignRight`.

## Model

| member | source | states |
|---|---|---|
| Align.LeftPadding | table_writer_test.go:82-89 | blanks before the text: none for left alignment, all of them for right, and for centring the rounded-down half, so the right side gets the same number or one more |
| Align.RightPadding | table_writer_test.go:82-89 | blanks after the text: all of them for left alignment, none for right, and for centring the left side's count or one more; with the left blanks and the text they fill exactly the column width |
| Align.PadLayout | table_writer_test.go:82-89 | a padded cell is exactly its column's width, holds the text at the left-padding offset, and is blank before and after it |
| Align.PadStripRoundTrip | table_writer_test.go:57-61 | stripping the blanks off a padded cell gives back the cell text, for any alignment, when the text has no blanks at its own ends |
| Align.PadFlush | table_writer_test.go:99 | left alignment writes the text then all the blanks; right alignment, which this call requests for ordinary cells, writes all the blanks then the text |
| Layout.RepeatWithValue | table_writer_test.go:64-71 | joining no items gives the empty string; the front reading and the length of a join are the two lemmas below |
| Layout.RepeatWithValueFront | table_writer_test.go:64-71 | `repeatWithValue` reads from the front as the separator, the first item, then the rest: one separator before every item and none after the last |
| Layout.RepeatWithValueLength | table_writer_test.go:64-71 | the output length is the item lengths plus one separator per item |
| Layout.BorderLayout | table_writer_test.go:34-43 | the border is sum(widths) + columns + 1 long, has `+` at every column offset, and holds `width` dashes inside each column |
| Layout.RowLineLayout | table_writer_test.go:82-89 | a content line is exactly as long as the border, has a bar wherever the border has `+`, and holds each padded cell between its column's delimiters |
| Layout.RowLineCellRoundTrip | table_writer_test.go:57-61 | each cell can be read back from its row line by stripping the field between its column's delimiters |
| Layout.MergedLineLayout | table_writer_test.go:117-127 | a merged row is as long as the border, holds the text right after the opening bar, followed only by blanks, and is the same for every requested alignment |
| TableWriter.FirstTooNarrow | table_writer_test.go:93-101 | finds no column exactly when every width covers its text plus the slack; otherwise it returns the first column that does not |
| TableWriter.NewTableWriter | table_writer_test.go:45-50 | returns a writer exactly when the configuration is valid. Otherwise there is no writer, and the error names the count mismatch, the empty configuration, or the first column too narrow for its header plus one blank |
| TableWriter.PrintFooter | table_writer_test.go:34-43 | the footer is as long as a border plus one, ending in a newline |
| TableWriter.PrintFooterLayout | table_writer_test.go:34-43 | the footer is the border line and a newline: a `+` at every column offset, the column's width in dashes inside each column, and the newline last |
| TableWriter.PrintRow | table_writer_test.go:93-101 | no error exactly when every cell fits its column. Otherwise nothing is written, and the error names the first overflowing cell, its text and its column's width, every earlier cell fitting |
| TableWriter.PrintRowFits | table_writer_test.go:52-62 | a row whose cells all fit writes exactly its row line and a newline, and returns no error |
| TableWriter.PrintRowLayout | table_writer_test.go:57-61 | a row that fits is one newline-terminated line as long as the footer, with a bar at every column offset and each cell padded to its column's width between two of them |
| TableWriter.PrintHeaderLines | table_writer_test.go:21-31 | the header never fails and is three lines: the footer border, the row `PrintRow` writes for the centred headers, and the border again, all equally long and newline-terminated |
| TableWriter.PrintRowsAllFit | table_writer_test.go:81-89 | when every row fits, printing the rows writes each row's line in order and returns no error |
| TableWriter.PrintRowsStops | table_writer_test.go:93-101 | when row `k` is the first that does not fit, printing the rows writes the lines of the rows before `k` and returns row `k`'s error |
| TableWriter.PrintTableComposition | table_writer_test.go:73-91 | when every row fits, the table is the header, each row's line in order, then one footer border, with no error |
| TableWriter.PrintTableStopsAtFirstOverflow | table_writer_test.go:93-101 | a table with an overflowing row keeps the header and the earlier rows' lines, writes no footer, and returns that row's error |
| TableWriter.PrintRowAsOneColumn | table_writer_test.go:112-125 | the merged field is sum(widths) + columns - 1 wide. Text that fits is written flush left, padded with blanks, between two bars, and is as long as the footer. Longer text writes nothing and is an error |
| TableWriterVectors.TestInit | table_writer_test.go:14-19 | widths 6, 9, 12 for `Id`, `Count`, `Timestamp` give a writer |
| TableWriterVectors.TestInvalidInit | table_writer_test.go:45-50 | widths 6, 9, 8 give no writer and an error for column 2, `Timestamp`, which needs 10 |
| TableWriterVectors.CenterPaddingVectors | table_writer_test.go:82-89 | centring `Timestamp` in 12, `1` in 6, `11` in 9 and `999999` in 9 gives the padded fields of the expected table |
| TableWriterVectors.TestPrintFooter | table_writer_test.go:34-43 | the footer is `+------+---------+------------+` and a newline |
| TableWriterVectors.TestPrintHeader | table_writer_test.go:21-31 | the header is the three expected lines |
| TableWriterVectors.TestPrintRow | table_writer_test.go:52-62 | the row `12`, `10`, `1461910429` centred is the expected line |
| TableWriterVectors.TestPrintRows | table_writer_test.go:64-71 | `repeatWithValue` with a bar separator over `12`, `10`, `1461910429` puts a bar before each value and none after the last, as the expected string shows |
| TableWriterVectors.TestPrintTable | table_writer_test.go:73-91 | the three-row table centred is the expected seven lines, with no error |
| TableWriterVectors.TestInvalidRow | table_writer_test.go:93-101 | `1234567` in a width-6 column writes nothing and is an overflow error for column 0 |
| TableWriterVectors.TestSummaryRows | table_writer_test.go:112-125 | the two summary texts, asked to align right, are written flush left in a 29-wide field |
| TableWriterVectors.TestSummaryTable | table_writer_test.go:103-128 | table, two summary rows and footer together give the expected ten lines |

## Left out

- The `io.Writer` sink and `NewTableWriter`'s default of standard output are not modelled. Each operation returns the text it writes, so construction with and without a writer is the same function.
- Write failures of the sink, and the partial output they leave, are not modelled. Every write succeeds.
- Concurrent use of one writer is not modelled.
- Display width is not modelled. Strings are sequences of ASCII characters, and a cell's width is its length in bytes, as Go's `len` counts it.
- Idempotence and determinism of repeated calls get no lemma. Every operation is a pure function of the writer and its arguments, so they hold by construction.
- TableWriter.PrintRow: a row whose cell count differs from the column count is excluded by a precondition rather than given an error. The test file never passes one.
- TableWriter.PrintTable: the same precondition applies to every row of the table.
- Left and right alignment of ordinary cells are modelled, and `Align.PadFlush` states their shape. No test output pins them.
- TableWriter.PrintFooter: the function's own contract states only the length and the final newline. The border shape, which makes the footer one line, is stated by `TableWriter.PrintFooterLayout` and kept out of the function's contract because it makes every proof that mentions the footer much costlier for the verifier.
- Layout.RepeatWithValue: the function's own contract states only the empty case. Its front reading and its length are stated by `Layout.RepeatWithValueFront` and `Layout.RepeatWithValueLength`, which proofs invoke where they need them, so that proofs that only unfold the join do not carry facts about its slices.
