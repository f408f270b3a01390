/** The Structure and Schema tabs of the terminal UI, as the sequences of
    sections and panels they assemble; drawing them is left to the toolkit. */
module Tui {
  import opened Exceptions
  import opened Formatting
  import opened Footer

  // ---------------------------------------------------------------------
  // Byte counts for display (`StructureTab._format_size`)

  /** The unit a byte count is shown in. */
  datatype SizeUnit = Bytes | Kilobytes | Megabytes | Gigabytes

  function UnitBytes(u: SizeUnit): nat
  {
    match u
    case Bytes => 1
    case Kilobytes => 1024
    case Megabytes => 1024 * 1024
    case Gigabytes => 1024 * 1024 * 1024
  }

  function UnitName(u: SizeUnit): string
  {
    match u
    case Bytes => "bytes"
    case Kilobytes => "KB"
    case Megabytes => "MB"
    case Gigabytes => "GB"
  }

  /** The bucket of a byte count: thresholds at successive powers of 1024,
      exactly one bucket for every count. */
  function SizeUnitOf(n: int): (u: SizeUnit)
    ensures u == Bytes <==> n < 1024
    ensures u == Kilobytes <==> 1024 <= n < 1024 * 1024
    ensures u == Megabytes <==> 1024 * 1024 <= n < 1024 * 1024 * 1024
    ensures u == Gigabytes <==> 1024 * 1024 * 1024 <= n
    ensures u != Bytes ==> UnitBytes(u) <= n
  {
    if n < 1024 then Bytes
    else if n < 1024 * 1024 then Kilobytes
    else if n < 1024 * 1024 * 1024 then Megabytes
    else Gigabytes
  }

  /** A byte count as text: below 1024 the plain count and "bytes"; from
      1024 on the count scaled to its unit with two decimals, then the exact
      count with thousands separators in parentheses. */
  function FormatSize(n: int): string
  {
    var u := SizeUnitOf(n);
    if u == Bytes then IntToString(n) + " bytes"
    else ScaledFigure(n, u) + " " + UnitName(u) + ExactCount(n)
  }

  /** The count in hundredths of the unit, as two decimals. */
  function ScaledFigure(n: nat, u: SizeUnit): string
  {
    TwoDecimals(RoundHalfEven(100 * n, UnitBytes(u)))
  }

  /** The exact count in parentheses. */
  function ExactCount(n: int): string
  {
    " (" + Grouped(n) + " bytes)"
  }

  lemma IntToStringChars(i: int)
    ensures forall k | 0 <= k < |IntToString(i)| :: IntToString(i)[k] == '-' || IsDigit(IntToString(i)[k])
  {
    var s := IntToString(i);
    if i < 0 {
      NatToStringRoundTrip(-i);
      forall k | 0 <= k < |s| ensures s[k] == '-' || IsDigit(s[k]) {
        if k > 0 { assert s[k] == NatToString(-i)[k - 1]; }
      }
    } else {
      NatToStringRoundTrip(i);
    }
  }

  /** Below 1024 the text is the count itself and " bytes": no separators
      and no parenthesised count. */
  lemma FormatSizeSmall(n: int)
    requires n < 1024
    ensures var s := FormatSize(n);
      s == IntToString(n) + " bytes" && ',' !in s && '(' !in s
  {
    var s := FormatSize(n);
    IntToStringChars(n);
    var d := IntToString(n);
    forall k | 0 <= k < |s| ensures s[k] != ',' && s[k] != '(' {
      if k < |d| { assert s[k] == d[k]; }
    }
  }

  /** From 1024 on the text ends with the exact count, with thousands
      separators, in parentheses; removing the separators reads back `n`. */
  lemma FormatSizeExactCount(n: int)
    requires n >= 1024
    ensures exists head: string :: head != [] && FormatSize(n) == head + " (" + Grouped(n) + " bytes)"
    ensures AllDigits(RemoveCommas(Grouped(n))) && DigitsValue(RemoveCommas(Grouped(n))) == n
  {
    GroupedRoundTrip(n);
    var u := SizeUnitOf(n);
    var head := ScaledFigure(n, u) + " " + UnitName(u);
    assert FormatSize(n) == head + ExactCount(n);
    assert head + ExactCount(n) == head + " (" + Grouped(n) + " bytes)";
    assert |head| > 0;
  }

  /** From 1024 on the figure before the unit is `n / unit` to the nearest
      hundredth (ties to even), and the unit is the bucket of `n`. */
  lemma FormatSizeScaledFigure(n: int)
    requires n >= 1024
    ensures var u := SizeUnitOf(n);
      var d := UnitBytes(u);
      exists h: nat ::
        FormatSize(n) == TwoDecimals(h) + " " + UnitName(u) + ExactCount(n) &&
        NearestEven(100 * n, d, h)
  {
    var u := SizeUnitOf(n);
    var h := RoundHalfEven(100 * n, UnitBytes(u));
    RoundHalfEvenNearest(100 * n, UnitBytes(u));
    assert ScaledFigure(n, u) == TwoDecimals(h);
  }

  // ---------------------------------------------------------------------
  // The Structure tab (`StructureTab._render_structure`)

  /** At most this many column panels are drawn per row group. */
  const MAX_COLS_TO_SHOW: nat := 20
  /** Column panels per grid row. */
  const COLS_PER_ROW: nat := 3

  /** A cell of a row group's column grid: a column chunk's panel (title,
      compressed size, physical type) or an empty filler panel. */
  datatype Panel = ColumnPanel(title: string, size: string, physicalType: string) | EmptyPanel

  /** A grid row: three cells, or the note on the columns left out (drawn
      as the note's panel followed by two empty strings). */
  datatype GridRow = PanelRow(cells: seq<Panel>) | OverflowRow(hiddenColumns: int)

  /** The sections of the Structure tab, top to bottom. `Spacer` is the
      empty line between sections. */
  datatype Section =
    | FileInfo(fileName: string, size: string)
    | Spacer
    | HeaderPanel(magic: string, sizeBytes: nat)
    | RowGroupPanel(index: nat, rows: string, size: string, numColumns: nat, columnGrid: seq<GridRow>)
    | ColumnIndexPanel(combinedSize: string)
    | OffsetIndexPanel
    | FooterPanel(totalRows: string, rowGroups: nat, metadataSize: string,
                  sizeFieldBytes: nat, magic: string, magicBytes: nat)

  function Min(a: nat, b: nat): nat { if a <= b then a else b }

  /** How many column panels a row group with `n` columns shows. */
  function ShownColumns(n: nat): nat { Min(n, MAX_COLS_TO_SHOW) }

  function ColumnPanelOf(c: ColumnChunk): Panel
  {
    ColumnPanel(c.pathInSchema, FormatSize(c.totalCompressedSize), c.physicalType)
  }

  /** The panels of the column chunks shown, in index order. */
  function ShownPanels(cols: seq<ColumnChunk>): (panels: seq<Panel>)
    ensures |panels| == ShownColumns(|cols|)
  {
    seq(ShownColumns(|cols|), k requires 0 <= k < ShownColumns(|cols|) => ColumnPanelOf(cols[k]))
  }

  /** Cell `k` of the grid, counted row by row: the `k`-th panel shown, or
      a filler past the last one. */
  function Cell(panels: seq<Panel>, k: nat): Panel
  {
    if k < |panels| then panels[k] else EmptyPanel
  }

  function GridRowAt(panels: seq<Panel>, r: nat): GridRow
  {
    PanelRow(seq(COLS_PER_ROW, o requires 0 <= o < COLS_PER_ROW => Cell(panels, COLS_PER_ROW * r + o)))
  }

  /** Grid rows needed for `shown` panels, the last one possibly part-filled. */
  function GridRowCount(shown: nat): nat
  {
    (shown + COLS_PER_ROW - 1) / COLS_PER_ROW
  }

  /** `m` rows of three hold `shown` panels with fewer than three fillers
      exactly when `m` is the row count. */
  lemma RowCountFromBounds(shown: nat, m: nat)
    requires shown <= COLS_PER_ROW * m < shown + COLS_PER_ROW
    ensures GridRowCount(shown) == m
  {
  }

  /** Three cells a row leave fewer than three fillers. */
  lemma RowCountBounds(shown: nat)
    ensures shown <= COLS_PER_ROW * GridRowCount(shown) < shown + COLS_PER_ROW
  {
  }

  /** The rows of panels, three to a row. */
  function PanelRows(panels: seq<Panel>): seq<GridRow>
  {
    seq(GridRowCount(|panels|), r requires 0 <= r < GridRowCount(|panels|) => GridRowAt(panels, r))
  }

  /** The note row, present only when columns are left out. */
  function OverflowNote(cols: seq<ColumnChunk>): seq<GridRow>
  {
    if |cols| > MAX_COLS_TO_SHOW then [OverflowRow(|cols| - MAX_COLS_TO_SHOW)] else []
  }

  function ColumnGrid(cols: seq<ColumnChunk>): seq<GridRow>
  {
    PanelRows(ShownPanels(cols)) + OverflowNote(cols)
  }

  function RowGroupSection(i: nat, rg: RowGroupMetadata): Section
  {
    RowGroupPanel(i, Grouped(rg.numRows), FormatSize(rg.totalByteSize), |rg.columns|, ColumnGrid(rg.columns))
  }

  function RowGroupSections(rgs: seq<RowGroupMetadata>): seq<Section>
  {
    seq(|rgs|, i requires 0 <= i < |rgs| => RowGroupSection(i, rgs[i]))
  }

  /** The Column Index and Offset Index panels; the size is shown once. */
  function PageIndexPanels(pageIndexSize: int): seq<Section>
  {
    if pageIndexSize > 0 then [ColumnIndexPanel(FormatSize(pageIndexSize)), OffsetIndexPanel] else []
  }

  function FooterSection(reader: ReaderView): Section
  {
    FooterPanel(Grouped(reader.numRows), |reader.rowGroups|, FormatSize(reader.metadataSize),
                FOOTER_LENGTH_SIZE, MAGIC, MAGIC_SIZE)
  }

  /** `file_path.name` on a plain string raises. */
  const NO_NAME_ATTRIBUTE: PyException := PyException(AttributeError, "'str' object has no attribute 'name'")

  /** The sections top to bottom, given the parts built from the reader:
      the page-index panels come behind their own spacer, and only when
      there are any. */
  function Arrange(fileInfo: Section, rowGroupPanels: seq<Section>, pageIndexPanels: seq<Section>,
                   footer: Section): seq<Section>
  {
    [fileInfo, Spacer, HeaderPanel(MAGIC, MAGIC_SIZE), Spacer] + rowGroupPanels
    + (if pageIndexPanels != [] then [Spacer] + pageIndexPanels else [])
    + [Spacer, footer]
  }

  /** The Structure tab's sections, or the exception that building them
      raises: the missing `name` is met before the page-index size is read. */
  function StructureView(reader: ReaderView): (r: Result<seq<Section>>)
    ensures r.Ok? <==> reader.filePath.PathObject? && reader.pageIndexSize.Ok?
    ensures reader.filePath.PlainString? ==> r == Err(NO_NAME_ATTRIBUTE)
    ensures reader.filePath.PathObject? && reader.pageIndexSize.Err? ==> r == Err(reader.pageIndexSize.error)
  {
    match reader.filePath
    case PlainString(_) => Err(NO_NAME_ATTRIBUTE)
    case PathObject(name) =>
      match reader.pageIndexSize
      case Err(e) => Err(e)
      case Ok(pageIndexSize) =>
        Ok(Arrange(FileInfo(name, FormatSize(reader.fileSize)), RowGroupSections(reader.rowGroups),
                   PageIndexPanels(pageIndexSize), FooterSection(reader)))
  }

  /** One grid row: the cells for column indices `rowIdx`, `rowIdx + 1`,
      `rowIdx + 2`, a filler wherever the index reaches `colsToDisplay`. */
  method BuildGridRow(rg: RowGroupMetadata, colsToDisplay: nat, rowIdx: nat) returns (rowPanels: seq<Panel>)
    requires colsToDisplay == ShownColumns(|rg.columns|)
    ensures |rowPanels| == COLS_PER_ROW
    ensures forall o | 0 <= o < COLS_PER_ROW :: rowPanels[o] == Cell(ShownPanels(rg.columns), rowIdx + o)
  {
    ghost var panels := ShownPanels(rg.columns);
    rowPanels := [];
    for colOffset := 0 to COLS_PER_ROW
      invariant |rowPanels| == colOffset
      invariant forall o | 0 <= o < colOffset :: rowPanels[o] == Cell(panels, rowIdx + o)
    {
      var colIdx := rowIdx + colOffset;
      if colIdx < colsToDisplay {
        var col := rg.columns[colIdx];
        assert Cell(panels, colIdx) == ColumnPanelOf(col);
        rowPanels := rowPanels + [ColumnPanel(col.pathInSchema, FormatSize(col.totalCompressedSize), col.physicalType)];
      } else {
        rowPanels := rowPanels + [EmptyPanel];
      }
    }
  }

  /** A row group's column table: grid rows three cells wide for the
      columns shown, then the note on the columns left out, if any. */
  method BuildColumnGrid(rg: RowGroupMetadata) returns (colTable: seq<GridRow>)
    ensures colTable == ColumnGrid(rg.columns)
  {
    var colsToDisplay := Min(|rg.columns|, MAX_COLS_TO_SHOW);
    ghost var panels := ShownPanels(rg.columns);
    colTable := [];
    var rowIdx := 0;
    while rowIdx < colsToDisplay
      invariant rowIdx == COLS_PER_ROW * |colTable|
      invariant rowIdx <= colsToDisplay + COLS_PER_ROW - 1
      invariant forall r | 0 <= r < |colTable| :: colTable[r] == GridRowAt(panels, r)
    {
      var rowPanels := BuildGridRow(rg, colsToDisplay, rowIdx);
      assert PanelRow(rowPanels) == GridRowAt(panels, |colTable|);
      colTable := colTable + [PanelRow(rowPanels)];
      rowIdx := rowIdx + COLS_PER_ROW;
    }
    RowCountFromBounds(colsToDisplay, |colTable|);
    assert colTable == PanelRows(panels);
    if |rg.columns| > MAX_COLS_TO_SHOW {
      colTable := colTable + [OverflowRow(|rg.columns| - MAX_COLS_TO_SHOW)];
    }
  }

  /** One panel per row group, in index order: its row count, byte size,
      column count and column table. */
  method BuildRowGroupPanels(rowGroups: seq<RowGroupMetadata>) returns (rowGroupPanels: seq<Section>)
    ensures rowGroupPanels == RowGroupSections(rowGroups)
  {
    rowGroupPanels := [];
    for i := 0 to |rowGroups|
      invariant |rowGroupPanels| == i
      invariant forall j | 0 <= j < i :: rowGroupPanels[j] == RowGroupSection(j, rowGroups[j])
    {
      var rg := rowGroups[i];
      var colTable := BuildColumnGrid(rg);
      rowGroupPanels := rowGroupPanels + [RowGroupPanel(i, Grouped(rg.numRows), FormatSize(rg.totalByteSize), |rg.columns|, colTable)];
    }
  }

  /** Builds the Structure tab step by step: the file info, the header, one
      panel per row group, the page-index panels and the footer, then the
      list of sections. */
  method RenderStructure(reader: ReaderView) returns (result: Result<seq<Section>>)
    ensures result == StructureView(reader)
  {
    var fileSizeStr := FormatSize(reader.fileSize);
    if reader.filePath.PlainString? {
      return Err(NO_NAME_ATTRIBUTE);
    }
    var fileInfo := FileInfo(reader.filePath.name, fileSizeStr);
    var headerPanel := HeaderPanel(MAGIC, MAGIC_SIZE);

    var rowGroupPanels := BuildRowGroupPanels(reader.rowGroups);

    if reader.pageIndexSize.Err? {
      return Err(reader.pageIndexSize.error);
    }
    var pageIndexSize := reader.pageIndexSize.value;
    var pageIndexPanels: seq<Section> := [];
    if pageIndexSize > 0 {
      var pageIndexSizeStr := FormatSize(pageIndexSize);
      pageIndexPanels := pageIndexPanels + [ColumnIndexPanel(pageIndexSizeStr)];
      pageIndexPanels := pageIndexPanels + [OffsetIndexPanel];
    }

    var footerPanel := FooterPanel(Grouped(reader.numRows), |reader.rowGroups|, FormatSize(reader.metadataSize),
                                   FOOTER_LENGTH_SIZE, MAGIC, MAGIC_SIZE);

    var sections := [fileInfo, Spacer, headerPanel, Spacer];
    sections := sections + rowGroupPanels;
    if pageIndexPanels != [] {
      sections := sections + [Spacer];
      sections := sections + pageIndexPanels;
    }
    sections := sections + [Spacer, footerPanel];
    assert pageIndexPanels == PageIndexPanels(pageIndexSize);
    assert footerPanel == FooterSection(reader);
    assert sections == Arrange(fileInfo, rowGroupPanels, pageIndexPanels, footerPanel);
    return Ok(sections);
  }

  // Properties of the column grid

  /** The panels of the grid's panel rows, row by row. */
  function GridCells(rows: seq<GridRow>): seq<Panel>
  {
    if rows == [] then []
    else GridCells(rows[..|rows| - 1]) + (match rows[|rows| - 1] case PanelRow(cells) => cells case OverflowRow(_) => [])
  }

  lemma {:induction false} GridCellsPrefix(panels: seq<Panel>, m: nat)
    requires m <= GridRowCount(|panels|)
    ensures GridCells(PanelRows(panels)[..m]) ==
      seq(COLS_PER_ROW * m, k requires 0 <= k < COLS_PER_ROW * m => Cell(panels, k))
  {
    var rows := PanelRows(panels);
    if m > 0 {
      GridCellsPrefix(panels, m - 1);
      assert rows[..m][..m - 1] == rows[..m - 1];
      var before := seq(COLS_PER_ROW * (m - 1), k requires 0 <= k < COLS_PER_ROW * (m - 1) => Cell(panels, k));
      var last := rows[m - 1].cells;
      assert GridCells(rows[..m]) == before + last;
      assert before + last == seq(COLS_PER_ROW * m, k requires 0 <= k < COLS_PER_ROW * m => Cell(panels, k));
    }
  }

  /** Read row by row, the grid shows the first min(n, 20) column chunks in
      index order, then fewer than three fillers completing the last row. */
  lemma ColumnGridInOrder(cols: seq<ColumnChunk>)
    ensures var shown := ShownColumns(|cols|);
      var fillers := COLS_PER_ROW * GridRowCount(shown) - shown;
      0 <= fillers < COLS_PER_ROW &&
      GridCells(ColumnGrid(cols)) ==
        seq(shown, k requires 0 <= k < shown => ColumnPanelOf(cols[k])) + seq(fillers, _ => EmptyPanel)
  {
    var panels := ShownPanels(cols);
    var n := GridRowCount(|panels|);
    RowCountBounds(|panels|);
    var rows := PanelRows(panels);
    GridCellsPrefix(panels, n);
    assert rows[..n] == rows;
    var fillers := COLS_PER_ROW * n - |panels|;
    assert seq(COLS_PER_ROW * n, k requires 0 <= k < COLS_PER_ROW * n => Cell(panels, k)) ==
      panels + seq(fillers, _ => EmptyPanel);
    var grid := ColumnGrid(cols);
    if |cols| > MAX_COLS_TO_SHOW {
      assert grid[..n] == rows;
    } else {
      assert grid == rows;
    }
  }

  /** The grid has ⌈shown/3⌉ rows of exactly three cells, followed by the
      note row exactly when more than 20 columns exist; the note counts the
      columns not shown. */
  lemma ColumnGridShape(cols: seq<ColumnChunk>)
    ensures var grid := ColumnGrid(cols);
      var rows := GridRowCount(ShownColumns(|cols|));
      ShownColumns(|cols|) <= COLS_PER_ROW * rows < ShownColumns(|cols|) + COLS_PER_ROW &&
      |grid| == rows + (if |cols| > MAX_COLS_TO_SHOW then 1 else 0) &&
      (forall r | 0 <= r < rows :: grid[r].PanelRow? && |grid[r].cells| == COLS_PER_ROW) &&
      ((exists r | 0 <= r < |grid| :: grid[r].OverflowRow?) <==> |cols| > MAX_COLS_TO_SHOW) &&
      (|cols| > MAX_COLS_TO_SHOW ==> grid[|grid| - 1] == OverflowRow(|cols| - MAX_COLS_TO_SHOW))
  {
    var grid := ColumnGrid(cols);
    var rows := GridRowCount(ShownColumns(|cols|));
    RowCountBounds(ShownColumns(|cols|));
    if |cols| > MAX_COLS_TO_SHOW {
      assert grid[|grid| - 1].OverflowRow?;
    } else {
      forall r | 0 <= r < |grid| ensures !grid[r].OverflowRow? {
        assert grid[r] == GridRowAt(ShownPanels(cols), r);
      }
    }
  }

  // Properties of the section list

  /** The Structure tab, when it can be built, lists: file info, spacer,
      header, spacer, the row groups in index order, then the page-index
      panels behind a spacer only when the inferred size is positive, and
      last a spacer and the footer. */
  lemma StructureViewLayout(reader: ReaderView)
    requires reader.filePath.PathObject? && reader.pageIndexSize.Ok?
    ensures StructureView(reader).Ok?
    ensures var s := StructureView(reader).value;
      var n := |reader.rowGroups|;
      var shown := reader.pageIndexSize.value > 0;
      |s| == 6 + n + (if shown then 3 else 0) &&
      s[0] == FileInfo(reader.filePath.name, FormatSize(reader.fileSize)) &&
      s[1] == Spacer && s[2] == HeaderPanel(MAGIC, MAGIC_SIZE) && s[3] == Spacer &&
      (forall i | 0 <= i < n :: s[4 + i] == RowGroupSection(i, reader.rowGroups[i])) &&
      (shown ==> s[4 + n] == Spacer && s[5 + n] == ColumnIndexPanel(FormatSize(reader.pageIndexSize.value)) &&
                 s[6 + n] == OffsetIndexPanel) &&
      s[|s| - 2] == Spacer && s[|s| - 1] == FooterSection(reader)
  {
    ArrangeIndices(FileInfo(reader.filePath.name, FormatSize(reader.fileSize)), RowGroupSections(reader.rowGroups),
                   PageIndexPanels(reader.pageIndexSize.value), FooterSection(reader));
  }

  /** Where Arrange puts each part. */
  lemma ArrangeIndices(fileInfo: Section, rowGroupPanels: seq<Section>, pageIndexPanels: seq<Section>, footer: Section)
    ensures var s := Arrange(fileInfo, rowGroupPanels, pageIndexPanels, footer);
      var n := |rowGroupPanels|;
      var m := if pageIndexPanels != [] then 1 + |pageIndexPanels| else 0;
      |s| == 6 + n + m &&
      s[0] == fileInfo && s[1] == Spacer && s[2] == HeaderPanel(MAGIC, MAGIC_SIZE) && s[3] == Spacer &&
      (forall i | 0 <= i < n :: s[4 + i] == rowGroupPanels[i]) &&
      (pageIndexPanels != [] ==>
         s[4 + n] == Spacer && forall i | 0 <= i < |pageIndexPanels| :: s[5 + n + i] == pageIndexPanels[i]) &&
      s[|s| - 2] == Spacer && s[|s| - 1] == footer
  {
    var head := [fileInfo, Spacer, HeaderPanel(MAGIC, MAGIC_SIZE), Spacer];
    var middle := if pageIndexPanels != [] then [Spacer] + pageIndexPanels else [];
    var front := head + rowGroupPanels;
    var s := front + middle + [Spacer, footer];
    assert s == Arrange(fileInfo, rowGroupPanels, pageIndexPanels, footer);
    forall i | 0 <= i < |rowGroupPanels| ensures s[4 + i] == rowGroupPanels[i] {
      assert s[4 + i] == front[4 + i];
    }
    if pageIndexPanels != [] {
      forall i | 0 <= i < |pageIndexPanels| ensures s[5 + |rowGroupPanels| + i] == pageIndexPanels[i] {
        assert s[5 + |rowGroupPanels| + i] == middle[1 + i];
      }
    }
  }

  /** Where each kind of panel can stand: the row-group panels fill
      positions 4 .. 3 + n, the Column Index and Offset Index panels appear
      once each, at fixed positions, exactly when the inferred size is
      positive (zero or a negative value hides both), and the footer is last. */
  lemma StructureViewPositions(reader: ReaderView)
    requires reader.filePath.PathObject? && reader.pageIndexSize.Ok?
    ensures StructureView(reader).Ok?
    ensures var s := StructureView(reader).value;
      var n := |reader.rowGroups|;
      var shown := reader.pageIndexSize.value > 0;
      forall k | 0 <= k < |s| ::
        (s[k].RowGroupPanel? <==> 4 <= k < 4 + n) &&
        (s[k].ColumnIndexPanel? <==> shown && k == 5 + n) &&
        (s[k].OffsetIndexPanel? <==> shown && k == 6 + n) &&
        (s[k].FooterPanel? <==> k == |s| - 1)
  {
    StructureViewLayout(reader);
    var s := StructureView(reader).value;
    var n := |reader.rowGroups|;
    forall k | 4 <= k < 4 + n ensures s[k].RowGroupPanel? {
      assert s[k] == RowGroupSection(k - 4, reader.rowGroups[k - 4]);
    }
    PositionsOfKinds(s, n, reader.pageIndexSize.value > 0);
  }

  /** The position argument on the kinds of the sections alone. */
  lemma PositionsOfKinds(s: seq<Section>, n: nat, shown: bool)
    requires |s| == 6 + n + (if shown then 3 else 0)
    requires s[0].FileInfo? && s[1].Spacer? && s[2].HeaderPanel? && s[3].Spacer?
    requires forall k | 4 <= k < 4 + n :: s[k].RowGroupPanel?
    requires shown ==> s[4 + n].Spacer? && s[5 + n].ColumnIndexPanel? && s[6 + n].OffsetIndexPanel?
    requires s[|s| - 2].Spacer? && s[|s| - 1].FooterPanel?
    ensures forall k | 0 <= k < |s| ::
      (s[k].RowGroupPanel? <==> 4 <= k < 4 + n) &&
      (s[k].ColumnIndexPanel? <==> shown && k == 5 + n) &&
      (s[k].OffsetIndexPanel? <==> shown && k == 6 + n) &&
      (s[k].FooterPanel? <==> k == |s| - 1)
  {
  }

  // ---------------------------------------------------------------------
  // The Schema tab (`SchemaTab._render_schema`)

  /** The Arrow schema's fields, one line each, and the Parquet schema's text. */
  datatype SchemaView = SchemaView(arrowLines: seq<string>, parquetSchema: string)

  /** The line for the field at 1-based position `i`: the number
      right-aligned in three places, a dot, the name in green markup, the type. */
  function NumberedField(i: int, f: Field): string
  {
    FieldNumber(i) + FieldText(f)
  }

  function FieldNumber(i: int): string
  {
    PadLeft(IntToString(i), 3)
  }

  function FieldText(f: Field): string
  {
    ". [green]" + f.name + "[/green]: " + f.typeText
  }

  /** Builds the schema listing one line per field, numbered from 1 in field order. */
  method RenderSchema(reader: ReaderView) returns (view: SchemaView)
    ensures |view.arrowLines| == |reader.arrowSchema|
    ensures forall k | 0 <= k < |reader.arrowSchema| ::
      view.arrowLines[k] == NumberedField(k + 1, reader.arrowSchema[k])
    ensures view.parquetSchema == reader.parquetSchemaText
  {
    var arrowLines: seq<string> := [];
    for k := 0 to |reader.arrowSchema|
      invariant |arrowLines| == k
      invariant forall j | 0 <= j < k :: arrowLines[j] == NumberedField(j + 1, reader.arrowSchema[j])
    {
      arrowLines := arrowLines + [NumberedField(k + 1, reader.arrowSchema[k])];
    }
    view := SchemaView(arrowLines, reader.parquetSchemaText);
  }

  function DropLeadingSpaces(s: string): (r: string)
    ensures r == [] || r[0] != ' '
  {
    if s != [] && s[0] == ' ' then DropLeadingSpaces(s[1..]) else s
  }

  function TakeDigits(s: string): (r: string)
    ensures AllDigits(r)
  {
    if s != [] && IsDigit(s[0]) then [s[0]] + TakeDigits(s[1..]) else []
  }

  /** The number a listing line starts with, as a reader of the line sees it. */
  function LeadingNumber(line: string): nat
  {
    DigitsValue(TakeDigits(DropLeadingSpaces(line)))
  }

  lemma {:induction false} DropSpacesBefore(k: nat, t: string)
    requires t == [] || t[0] != ' '
    ensures DropLeadingSpaces(Spaces(k) + t) == t
  {
    if k > 0 {
      assert (Spaces(k) + t)[1..] == Spaces(k - 1) + t;
      DropSpacesBefore(k - 1, t);
    } else {
      assert Spaces(k) + t == t;
    }
  }

  lemma {:induction false} TakeDigitsBefore(d: string, t: string)
    requires AllDigits(d) && (t == [] || !IsDigit(t[0]))
    ensures TakeDigits(d + t) == d
  {
    if d != [] {
      assert (d + t)[1..] == d[1..] + t;
      TakeDigitsBefore(d[1..], t);
    } else {
      assert d + t == t;
    }
  }

  /** The listing line for position `i` reads back as `i`. */
  lemma NumberedFieldReadsBack(i: nat, f: Field)
    ensures LeadingNumber(NumberedField(i, f)) == i
  {
    var digits := NatToString(i);
    NatToStringRoundTrip(i);
    var blanks := if |digits| >= 3 then 0 else 3 - |digits|;
    assert FieldNumber(i) == Spaces(blanks) + digits;
    var rest := FieldText(f);
    assert rest[0] == '.';
    assert NumberedField(i, f) == Spaces(blanks) + (digits + rest);
    DropSpacesBefore(blanks, digits + rest);
    TakeDigitsBefore(digits, rest);
  }
}
