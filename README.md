# datanomy: byte accounting, structure layout and CLI dispatch in Dafny

datanomy is a terminal viewer for the anatomy of Parquet files, local or in
S3-compatible object storage. This project models its logic in Dafny:

- the row-group arithmetic of the S3 reader (`RowGroup.has_compression`,
  `RowGroup.total_sizes`, `S3ParquetReader.page_index_size`) and how the
  reader is constructed;
- the human-readable byte counts of the Structure tab (`_format_size`);
- the list of sections and panels that `_render_structure` assembles, and
  the numbered field list of `_render_schema`;
- the reader selection and exit status of the `main` command.

Files and modules:

- `exceptions.dfy`, module `Exceptions`: Python exceptions as returned
  values.
- `formatting.dfy`, module `Formatting`: the parts of Python's string
  formatting that the display relies on.
  - `str(n)`.
  - `format(n, ",")`.
  - `format(i, "3d")`.
  - `format(x, ".2f")` of an exact quotient. This is round-half-to-even on
    integer hundredths.
- `footer.dfy`, module `Footer`: the parsed footer as pyarrow hands it
  over, and the reader interface that the views read.
- `s3_parquet.dfy`, module `S3Parquet`: models
  `src/datanomy/reader/s3_parquet.py`.
- `tui.dfy`, module `Tui`: models `src/datanomy/tui.py`.
- `format_size_examples.dfy`, module `FormatSizeExamples`: the four
  documented byte counts of `tests/test_utils.py`, worked out against the
  model of `_format_size`. Those tests call `datanomy.utils.format_size`,
  which is not part of this model; its documented outputs are the ones
  `_format_size` produces.
- `cli.dfy`, module `Cli`: models `src/datanomy/cli.py`.

`HasCompression`, `RenderStructure` and its three helper loops, and
`RenderSchema` are methods with loops, as in the source. Each is proved
against a specification function or a quantified postcondition. Everything
else is a function, and the properties are lemmas about those functions.

Notes on the code's behaviour:

- The page-index panels are gated only on the inferred size being positive.
  The index-presence flags play no part.
- A negative inferred size is returned as computed. It simply hides the
  panels.
- The footer panel reports a 4-byte size field and a 4-byte magic number,
  not one 8-byte trailer.
- A nonexistent path does not make `main` exit with status 2. The file
  argument at `src/datanomy/cli.py:15` is not declared with `exists=True`,
  so a missing local file fails in the reader and exits with 1. Click's own
  usage errors, which do exit with 2, are outside the model.
- No statistics, per-column totals, data preview or metadata views exist in
  the code. The Data, Metadata and Stats tabs are placeholders.

## Model

| member | source | states |
|---|---|---|
| S3Parquet.HasCompression | src/datanomy/reader/s3_parquet.py:77-80 | true exactly when some column chunk `j < num_columns` has a codec other than "UNCOMPRESSED". So it is false with no columns and false when every codec is UNCOMPRESSED |
| S3Parquet.TotalSizes | src/datanomy/reader/s3_parquet.py:83-97 | the compressed and uncompressed totals of a row group, both non-negative when every column chunk's sizes are. What they add up is stated by TotalSizesNoColumns, TotalSizesAddColumn and TotalSizesSplit below |
| S3Parquet.ColumnSumConcat | src/datanomy/reader/s3_parquet.py:91-96 | the summed byte count of a run of columns is additive over concatenation |
| S3Parquet.TotalSizesNoColumns | src/datanomy/reader/s3_parquet.py:91-97 | a row group without columns totals (0, 0) |
| S3Parquet.TotalSizesAddColumn | src/datanomy/reader/s3_parquet.py:91-97 | adding one column chunk, at either end, adds exactly its compressed and uncompressed sizes |
| S3Parquet.TotalSizesSplit | src/datanomy/reader/s3_parquet.py:91-97 | splitting the columns at any point splits both totals into the totals of the two parts |
| S3Parquet.Reraise | src/datanomy/reader/s3_parquet.py:138-141 | ArrowInvalid is re-raised as "<uri> does not appear to be a Parquet file"; any other exception passes through unchanged |
| S3Parquet.Open | src/datanomy/reader/s3_parquet.py:124-141 | the reader exists exactly when download and parse both succeed. It then keeps the URI, the byte length of the download as the file size, and the parsed metadata. Otherwise the error is exactly the re-raise of the first failure: the download's if it failed, else the parse's. So ArrowInvalid carries the URI message and any other exception keeps its kind and message |
| S3Parquet.PageIndexSize | src/datanomy/reader/s3_parquet.py:259-270 | 0 with no row groups. IndexError exactly when the last row group has no columns. Otherwise it is the value that makes last-data-end + page-index + metadata + 8 equal the file size |
| S3Parquet.PageIndexSizeOfLayout | src/datanomy/reader/s3_parquet.py:262-270 | a file laid out as data, a gap, the footer metadata and the 4+4-byte trailer yields exactly the gap |
| S3Parquet.PageIndexSizeReadsOnlyLastColumn | src/datanomy/reader/s3_parquet.py:262-270 | two readers that agree on file size, metadata size, row-group count and the last column chunk get the same result, whatever the other column chunks are |
| S3Parquet.PageIndexSizeNotClamped | src/datanomy/reader/s3_parquet.py:268-270 | for a one-column file, a file 12 bytes short yields -12 (not clamped); the exact fit yields 0 |
| S3Parquet.View | src/datanomy/reader/s3_parquet.py:124-141 | the views see the URI as a plain string path (no `name`), and exactly the reader's row groups, file size, row count, Arrow schema, Parquet schema text, metadata size and page-index size |
| Tui.FormatSize | src/datanomy/tui.py:33-52 | `_format_size`. Its meaning is stated by SizeUnitOf, FormatSizeSmall, FormatSizeExactCount and FormatSizeScaledFigure below, and by the four documented examples |
| Tui.SizeUnitOf | src/datanomy/tui.py:45-52 | exactly one bucket per count: bytes below 1024, KB on [1024, 1024²), MB on [1024², 1024³), GB from 1024³ |
| Tui.FormatSizeSmall | src/datanomy/tui.py:45-46 | below 1024 the text is `str(n) + " bytes"`, with no separator and no parenthesised count |
| Tui.FormatSizeExactCount | src/datanomy/tui.py:47-52 | from 1024 on the text ends with " (" + `format(n, ",")` + " bytes)". Removing the commas reads back exactly `n` |
| Tui.FormatSizeScaledFigure | src/datanomy/tui.py:47-52 | from 1024 on the figure is `n / unit` to the nearest hundredth, ties to even, followed by the unit name of the bucket |
| FormatSizeExamples.BytesExample | tests/test_utils.py:18 | 500 is shown as "500 bytes" |
| FormatSizeExamples.KilobytesExample | tests/test_utils.py:19 | 2048 is shown as "2.00 KB (2,048 bytes)" |
| FormatSizeExamples.MegabytesExample | tests/test_utils.py:20 | 5·1024² is shown as "5.00 MB (5,242,880 bytes)" |
| FormatSizeExamples.GigabytesExample | tests/test_utils.py:21 | 3·1024³ is shown as "3.00 GB (3,221,225,472 bytes)" |
| Formatting.NatToStringRoundTrip | src/datanomy/tui.py:46 | `str(n)` is digits with no leading zero that read back as `n` |
| Formatting.IntToStringRoundTrip | src/datanomy/tui.py:46 | `str(i)` of any int, sign included, reads back as `i` |
| Formatting.GroupDigitsRoundTrip | src/datanomy/tui.py:48 | the thousands separators are only inserted: removing them gives back the digits |
| Formatting.GroupDigitsCommaPositions | src/datanomy/tui.py:48 | a comma stands exactly at every fourth position from the right, one per full group of three after the first |
| Formatting.GroupedRoundTrip | src/datanomy/tui.py:48 | `format(n, ",")` without its commas is the decimal value `n` |
| Formatting.GroupedThousands | src/datanomy/tui.py:48 | from 1000 on, `format(n, ",")` is the grouping of `n // 1000`, a comma, and the last three digits of `n` with leading zeros |
| Formatting.RoundHalfEvenNearest | src/datanomy/tui.py:48 | the rounded figure is within half a unit of the quotient, and even on a tie |
| Formatting.TwoDecimalsReadsBack | src/datanomy/tui.py:48 | the figure has exactly two digits after its dot and reads back, without the dot, as the count of hundredths |
| Tui.BuildGridRow | src/datanomy/tui.py:108-127 | the row holds three cells. Cell `o` is the panel of column `row_idx + o` while that is below the number shown, and an empty filler after |
| Tui.BuildColumnGrid | src/datanomy/tui.py:94-138 | the column table built step by step equals the grid specification: the panel rows for the columns shown, then the overflow note |
| Tui.BuildRowGroupPanels | src/datanomy/tui.py:82-142 | one panel per row group, in index order, with its row count, byte size, column count and column table |
| Tui.StructureView | src/datanomy/tui.py:54-199 | the Structure view is built exactly when the path has a `name` and the page-index size did not raise. A plain string path raises AttributeError before the page-index size is read; otherwise the page-index exception is raised as is. The layout is stated by StructureViewLayout and StructureViewPositions below |
| Tui.RenderStructure | src/datanomy/tui.py:54-199 | the sections built by the method equal the Structure view specification. This includes the exceptions it raises: no `name` on the path, or the page-index size raising |
| Tui.ColumnGridInOrder | src/datanomy/tui.py:94-129 | read row by row, the grid shows the panels of the first min(n, 20) column chunks in index order, then fewer than three fillers |
| Tui.ColumnGridShape | src/datanomy/tui.py:94-138 | ⌈shown/3⌉ rows of exactly three cells. The overflow note is present exactly when there are more than 20 columns. It is last and counts n - 20 |
| Tui.StructureViewLayout | src/datanomy/tui.py:62-197 | the order is file info, spacer, header (PAR1, 4 bytes), spacer, row groups in index order, then spacer, Column Index and Offset Index only when the size is positive, then spacer and footer |
| Tui.StructureViewPositions | src/datanomy/tui.py:144-197 | row-group panels fill exactly positions 4 to 3+n. Column Index and Offset Index each occur once, at fixed positions, exactly when the size is positive. The footer is last |
| Tui.RenderSchema | src/datanomy/tui.py:228-240 | one line per Arrow field, in field order: line k is field k+1's number, name and type. The Parquet schema text is passed through |
| Tui.NumberedFieldReadsBack | src/datanomy/tui.py:231-232 | the number at the head of each listing line, after the alignment blanks, reads back as its 1-based position |
| Cli.SelectReader | src/datanomy/cli.py:33-49 | refused exactly for an `s3://` file without two non-empty credentials. The object-storage reader is chosen exactly when both credentials are non-empty, with the file as URI. The local reader is chosen exactly otherwise, with the file as path |
| Cli.Run | src/datanomy/cli.py:31-55 | exit status 0 exactly when a reader was chosen and nothing raised, and then nothing goes to stderr. Otherwise status 1 and exactly one stderr line: the credentials message, or "Error: " + the message of the exception raised by the reader or, when the reader was built, by the app. At most one reader is built |
| Cli.CredentialsSelectObjectStorage | src/datanomy/cli.py:33-47 | two non-empty credentials send even a plain path to object storage, as the URI |
| Cli.PlainPathOpensLocally | src/datanomy/cli.py:48-49 | a path without `s3://` and without both credentials builds exactly one local reader, on that path |
| Cli.SchemeWithoutCredentialsRefused | src/datanomy/cli.py:39-41 | `s3://` with an absent or empty access key or secret: status 1, only the credentials message, no reader, no app |
| Cli.NotParquetReported | src/datanomy/cli.py:53-55 | an object that fails to parse is reported as "Error: <uri> does not appear to be a Parquet file" with status 1 |
| Cli.S3StructureTabRaises | src/datanomy/tui.py:67 | for the object-storage reader, building the Structure tab raises AttributeError, because its `file_path` is a string |

## Left out

- Network and parsing: fetching the object with `obs.get` and parsing it with pyarrow are outside the model. Their outcomes enter `S3Parquet.Open` as parameters, and the parsed footer enters as a value.
- Object-store configuration: the store uses a hard-coded bucket, endpoint and credentials, so the constructor's credential and endpoint arguments have no effect. The model keeps only the URI.
- Widgets: Rich panels, tables, styles and Textual composition are not modelled. Sections and panels are descriptors that carry the text the panels show.
- Schema text: `str(schema_parquet)` and the Arrow type strings come from pyarrow and are inputs. The `"\n".join` of the listing lines is not modelled.
- Local paths: the local `ParquetReader` is not part of this model. `Path(file)` normalisation is not modelled: the request carries the argument as given.
- App behaviour: `DatanomyApp` creation and `run` enter `Cli.Run` as one optional exception. What Textual does with an exception raised while composing a tab is not modelled.
- Tui.FormatSizeScaledFigure: the scaled figure is exact only while the byte count fits a double exactly, below 2^53. The model uses exact rational rounding for every count.
- Command-line parsing: click's own usage errors (a missing FILE argument, an unknown option), which exit with status 2, are not modelled. `Cli.Run` starts from the parsed arguments.
- Placeholder tabs and version checks: the Data, Metadata and Stats tabs are placeholders, and the version checks are not part of the behaviour modelled.
