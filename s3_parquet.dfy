/** The S3 Parquet reader: opening a downloaded object, the row-group byte
    accounting and the inferred size of the page-index region. */
module S3Parquet {
  import opened Exceptions
  import opened Formatting
  import opened Footer

  /** Compressed and uncompressed byte totals of one row group. */
  datatype RowGroupSize = RowGroupSize(compressed: int, uncompressed: int)

  /** The codec name of a column chunk stored without compression. */
  const UNCOMPRESSED: string := "UNCOMPRESSED"

  /** Whether some column chunk of the row group uses a codec other than
      UNCOMPRESSED; the scan stops at the first one found. */
  method HasCompression(rg: RowGroupMetadata) returns (b: bool)
    ensures b <==> exists j | 0 <= j < |rg.columns| :: rg.columns[j].compression != UNCOMPRESSED
  {
    for j := 0 to |rg.columns|
      invariant forall k | 0 <= k < j :: rg.columns[k].compression == UNCOMPRESSED
    {
      if rg.columns[j].compression != UNCOMPRESSED {
        return true;
      }
    }
    return false;
  }

  /** Which of the two byte counts of a column chunk is summed. */
  datatype SizeKind = Compressed | Uncompressed

  function SizeOf(c: ColumnChunk, kind: SizeKind): int
  {
    match kind
    case Compressed => c.totalCompressedSize
    case Uncompressed => c.totalUncompressedSize
  }

  /** `sum(...)` of one byte count over the columns, added left to right;
      never negative when no column's count is. */
  function ColumnSum(cols: seq<ColumnChunk>, kind: SizeKind): (s: int)
    ensures (forall j | 0 <= j < |cols| :: SizeOf(cols[j], kind) >= 0) ==> s >= 0
  {
    if cols == [] then 0 else ColumnSum(cols[..|cols| - 1], kind) + SizeOf(cols[|cols| - 1], kind)
  }

  /** The row group's compressed and uncompressed totals (`total_sizes`);
      both are non-negative when every column chunk's sizes are. */
  function TotalSizes(rg: RowGroupMetadata): (t: RowGroupSize)
    ensures (forall j | 0 <= j < |rg.columns| ::
               rg.columns[j].totalCompressedSize >= 0 && rg.columns[j].totalUncompressedSize >= 0)
            ==> t.compressed >= 0 && t.uncompressed >= 0
  {
    RowGroupSize(ColumnSum(rg.columns, Compressed), ColumnSum(rg.columns, Uncompressed))
  }

  /** A sum over consecutive runs of columns is the sum of the runs' sums. */
  lemma {:induction false} ColumnSumConcat(a: seq<ColumnChunk>, b: seq<ColumnChunk>, kind: SizeKind)
    ensures ColumnSum(a + b, kind) == ColumnSum(a, kind) + ColumnSum(b, kind)
  {
    if b == [] {
      assert a + b == a;
    } else {
      ColumnSumConcat(a, b[..|b| - 1], kind);
      assert (a + b)[..|a + b| - 1] == a + b[..|b| - 1];
    }
  }

  /** A row group without columns totals (0, 0). */
  lemma TotalSizesNoColumns(rg: RowGroupMetadata)
    requires |rg.columns| == 0
    ensures TotalSizes(rg) == RowGroupSize(0, 0)
  {
  }

  /** Adding one column chunk, at either end, adds exactly its two sizes. */
  lemma TotalSizesAddColumn(rg: RowGroupMetadata, c: ColumnChunk)
    ensures var t := TotalSizes(rg);
      TotalSizes(rg.(columns := rg.columns + [c])) ==
        RowGroupSize(t.compressed + c.totalCompressedSize, t.uncompressed + c.totalUncompressedSize)
    ensures var t := TotalSizes(rg);
      TotalSizes(rg.(columns := [c] + rg.columns)) ==
        RowGroupSize(t.compressed + c.totalCompressedSize, t.uncompressed + c.totalUncompressedSize)
  {
    assert (rg.columns + [c])[..|rg.columns|] == rg.columns;
    ColumnSumConcat([c], rg.columns, Compressed);
    ColumnSumConcat([c], rg.columns, Uncompressed);
    assert [c][..0] == [];
  }

  /** Each total is the sum of the column chunks' sizes: splitting the
      columns anywhere splits the totals accordingly. */
  lemma TotalSizesSplit(rg: RowGroupMetadata, k: nat)
    requires k <= |rg.columns|
    ensures var t := TotalSizes(rg);
      var front := TotalSizes(rg.(columns := rg.columns[..k]));
      var back := TotalSizes(rg.(columns := rg.columns[k..]));
      t.compressed == front.compressed + back.compressed &&
      t.uncompressed == front.uncompressed + back.uncompressed
  {
    assert rg.columns == rg.columns[..k] + rg.columns[k..];
    ColumnSumConcat(rg.columns[..k], rg.columns[k..], Compressed);
    ColumnSumConcat(rg.columns[..k], rg.columns[k..], Uncompressed);
  }

  /** The reader after construction. The object store it builds is fixed
      (bucket, endpoint and credentials are constants), so it keeps only the
      URI, the length of the downloaded bytes and pyarrow's parse of them. */
  datatype S3ParquetReader = S3ParquetReader(filePath: string, fileSize: int, metadata: FileMetadata)

  const NOT_PARQUET_SUFFIX: string := " does not appear to be a Parquet file"

  /** The constructor's `except ArrowInvalid` clause: an ArrowInvalid raised
      while downloading or parsing is re-raised naming the URI; every other
      exception passes through unchanged. */
  function Reraise(fileUri: string, e: PyException): (e': PyException)
    ensures e'.kind == e.kind
    ensures e.kind == ArrowInvalid ==> e'.message == fileUri + NOT_PARQUET_SUFFIX
    ensures e.kind != ArrowInvalid ==> e' == e
  {
    if e.kind == ArrowInvalid then PyException(ArrowInvalid, fileUri + NOT_PARQUET_SUFFIX) else e
  }

  /** Constructing the reader: `download` is what `obs.get(...).bytes()`
      gave and `parse` what `pq.ParquetFile` made of those bytes. */
  function Open(fileUri: string, download: Result<seq<bv8>>, parse: Result<FileMetadata>): (r: Result<S3ParquetReader>)
    ensures r.Ok? <==> download.Ok? && parse.Ok?
    ensures r.Ok? ==> r.value.filePath == fileUri && r.value.fileSize == |download.value| &&
                      r.value.metadata == parse.value
    ensures download.Err? ==> r == Err(Reraise(fileUri, download.error))
    ensures download.Ok? && parse.Err? ==> r == Err(Reraise(fileUri, parse.error))
    ensures r.Err? ==> r.error.kind == (if download.Err? then download.error.kind else parse.error.kind)
    ensures r.Err? && r.error.kind == ArrowInvalid ==> r.error.message == fileUri + NOT_PARQUET_SUFFIX
  {
    match download
    case Err(e) => Err(Reraise(fileUri, e))
    case Ok(content) =>
      match parse
      case Err(e) => Err(Reraise(fileUri, e))
      case Ok(meta) => Ok(S3ParquetReader(fileUri, |content|, meta))
  }

  function NumRowGroups(r: S3ParquetReader): nat { |r.metadata.rowGroups| }

  function MetadataSize(r: S3ParquetReader): int { r.metadata.serializedSize }

  /** The byte just past the last data page of a column chunk. */
  function DataEnd(c: ColumnChunk): int { c.dataPageOffset + c.totalCompressedSize }

  /** The last column chunk of the last row group, when there is one. */
  predicate HasLastColumn(r: S3ParquetReader)
  {
    NumRowGroups(r) > 0 && |r.metadata.rowGroups[NumRowGroups(r) - 1].columns| > 0
  }

  function LastColumn(r: S3ParquetReader): ColumnChunk
    requires HasLastColumn(r)
  {
    var cols := r.metadata.rowGroups[NumRowGroups(r) - 1].columns;
    cols[|cols| - 1]
  }

  /** `page_index_size`: the bytes between the end of the last column chunk's
      data and the start of the footer metadata, on the assumption that the
      column and offset indexes fill exactly that gap. No clamping: a layout
      that breaks the assumption yields whatever the difference is. Asking a
      last row group without columns for `column(-1)` raises IndexError. */
  function PageIndexSize(r: S3ParquetReader): (result: Result<int>)
    ensures NumRowGroups(r) == 0 ==> result == Ok(0)
    ensures result.Err? <==> NumRowGroups(r) > 0 && !HasLastColumn(r)
    ensures result.Err? ==> result.error.kind == IndexError
    ensures HasLastColumn(r) ==>
              result.Ok? &&
              DataEnd(LastColumn(r)) + result.value + MetadataSize(r) + FOOTER_TRAILER_SIZE == r.fileSize
  {
    if NumRowGroups(r) == 0 then Ok(0)
    else
      var lastRg := r.metadata.rowGroups[NumRowGroups(r) - 1];
      var lastIndex := |lastRg.columns| - 1;
      if lastIndex < 0 then
        // pyarrow's bounds check in RowGroupMetaData.column
        Err(PyException(IndexError, IntToString(lastIndex) + " out of bounds"))
      else
        var lastCol := lastRg.columns[lastIndex];
        var lastDataOffset := lastCol.dataPageOffset + lastCol.totalCompressedSize;
        var footerStart := r.fileSize - MetadataSize(r) - FOOTER_TRAILER_SIZE;
        Ok(footerStart - lastDataOffset)
  }

  /** A file laid out as data, then `gap` bytes of page indexes, then the
      footer metadata and the 8-byte trailer gets `gap` back. */
  lemma PageIndexSizeOfLayout(r: S3ParquetReader, gap: int)
    requires HasLastColumn(r)
    requires r.fileSize == DataEnd(LastColumn(r)) + gap + MetadataSize(r) + MAGIC_SIZE + FOOTER_LENGTH_SIZE
    ensures PageIndexSize(r) == Ok(gap)
  {
  }

  /** Only the file size, the metadata size, the number of row groups and the
      last column chunk of the last row group matter: every other column
      chunk and row group can change freely. */
  lemma PageIndexSizeReadsOnlyLastColumn(r1: S3ParquetReader, r2: S3ParquetReader)
    requires r1.fileSize == r2.fileSize && MetadataSize(r1) == MetadataSize(r2)
    requires NumRowGroups(r1) == NumRowGroups(r2)
    requires HasLastColumn(r1) == HasLastColumn(r2)
    requires HasLastColumn(r1) ==> LastColumn(r1) == LastColumn(r2)
    ensures PageIndexSize(r1) == PageIndexSize(r2)
  {
  }

  /** Two one-column files whose gap sizes are negative and zero: the
      result is reported as computed, not clamped to zero. */
  lemma PageIndexSizeNotClamped()
    ensures var col := ColumnChunk("x", "INT64", "SNAPPY", 100, 120, 4);
      var meta := FileMetadata(5, 50, [RowGroupMetadata(5, 120, [col])], [], "");
      PageIndexSize(S3ParquetReader("s3://b/k", 150, meta)) == Ok(-12) &&
      PageIndexSize(S3ParquetReader("s3://b/k", 162, meta)) == Ok(0)
  {
  }

  /** The reader as the views see it. Its `file_path` is the URI string. */
  function View(r: S3ParquetReader): (v: ReaderView)
    ensures v.filePath == PlainString(r.filePath) && v.filePath.PlainString?
    ensures v.rowGroups == r.metadata.rowGroups && |v.rowGroups| == NumRowGroups(r)
    ensures v.fileSize == r.fileSize && v.numRows == r.metadata.numRows
    ensures v.pageIndexSize == PageIndexSize(r) && v.metadataSize == MetadataSize(r)
    ensures v.arrowSchema == r.metadata.arrowSchema && v.parquetSchemaText == r.metadata.parquetSchemaText
  {
    ReaderView(PlainString(r.filePath), r.fileSize, r.metadata.numRows, MetadataSize(r),
               PageIndexSize(r), r.metadata.rowGroups, r.metadata.arrowSchema,
               r.metadata.parquetSchemaText)
  }
}
