/** The parsed Parquet footer as the display code sees it, and the reader
    interface that the structure and schema views consume. Parsing the footer
    belongs to pyarrow; its results enter the model as these values. */
module Footer {
  import opened Exceptions

  /** The 4-byte magic number at both ends of a Parquet file. */
  const MAGIC: string := "PAR1"
  const MAGIC_SIZE: nat := 4
  /** The 4-byte little-endian length of the footer metadata, just before the trailing magic. */
  const FOOTER_LENGTH_SIZE: nat := 4
  /** Everything after the serialized footer metadata: length field and magic. */
  const FOOTER_TRAILER_SIZE: nat := FOOTER_LENGTH_SIZE + MAGIC_SIZE

  /** pyarrow's ColumnChunkMetaData, reduced to the attributes the code reads.
      `compression` is the codec name, "UNCOMPRESSED" for none. */
  datatype ColumnChunk = ColumnChunk(
    pathInSchema: string,
    physicalType: string,
    compression: string,
    totalCompressedSize: int,
    totalUncompressedSize: int,
    dataPageOffset: int)

  /** pyarrow's RowGroupMetaData: `num_columns` is `|columns|` and
      `column(j)` is `columns[j]`. */
  datatype RowGroupMetadata = RowGroupMetadata(
    numRows: int,
    totalByteSize: int,
    columns: seq<ColumnChunk>)

  /** One field of the Arrow schema; `typeText` is `str(field.type)`. */
  datatype Field = Field(name: string, typeText: string)

  /** pyarrow's FileMetaData together with the two schemas of the file;
      `parquetSchemaText` is `str(schema_parquet)`. */
  datatype FileMetadata = FileMetadata(
    numRows: int,
    serializedSize: int,
    rowGroups: seq<RowGroupMetadata>,
    arrowSchema: seq<Field>,
    parquetSchemaText: string)

  /** The reader's `file_path`: the local reader keeps a `pathlib.Path`
      (of which only `.name` is read), the S3 reader keeps the URI string. */
  datatype FilePath = PathObject(name: string) | PlainString(text: string)

  /** The reader interface the views read: `file_path`, `file_size`,
      `num_rows`, `metadata_size`, `page_index_size` (a property that may
      raise), `get_row_group_info(i)` as `rowGroups[i]`, `num_row_groups` as
      `|rowGroups|`, and the two schemas. */
  datatype ReaderView = ReaderView(
    filePath: FilePath,
    fileSize: int,
    numRows: int,
    metadataSize: int,
    pageIndexSize: Result<int>,
    rowGroups: seq<RowGroupMetadata>,
    arrowSchema: seq<Field>,
    parquetSchemaText: string)
}
