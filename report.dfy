/**
  One courier's worksheet: the header row, then the data-row loop
  `for i in 1..=rows.len()` that fills sheet row i from `rows[i]`.

  Because the index starts at 1 and ends at `rows.len()`, the input's row 0
  is never shown and the last pass reads past the end: every non-empty row
  set makes the job panic. `FillCorrected` is the loop as evidently intended.
 */
module Report {
  import opened Records
  import opened Cells
  import opened Sheet

  /** Why the job panics: a read past the end of the rows (index, length),
      or a status without a label at a given row index. */
  datatype Fault = IndexOutOfBounds(index: nat, len: nat) | UnmappedStatus(index: nat)

  datatype Outcome = Done | Panic(fault: Fault)

  /** The worksheet right after the header is written. */
  function HeaderGrid(): (g: Grid)
    ensures forall p: (nat, nat) :: p in g <==> p.0 == 0 && p.1 < Columns
    ensures forall c :: 0 <= c < Columns ==> g[(0, c)] == Str(HeaderLabels[c])
  {
    PutRowCells(map[], 0, HeaderCells());
    PutRow(map[], 0, HeaderCells())
  }

  /** No input row with an index in [lo, hi) has an unlabelled status. */
  ghost predicate MappedBetween(rows: seq<CourierXLS>, lo: nat, hi: nat)
  {
    forall j :: lo <= j < hi && j < |rows| ==> !rows[j].orderStatus.Other?
  }

  /** Row `row` of `g` holds the cells `cs` from column 0 on. */
  ghost predicate RowIs(g: Grid, row: nat, cs: seq<Cell>)
  {
    forall c: nat :: c < |cs| ==> (row, c) in g && g[(row, c)] == cs[c]
  }

  /** The data-row loop from index `i` on, over the grid `g`: the outcome and
      the grid it leaves. It completes only when it does not run at all. */
  function Fill(g: Grid, rows: seq<CourierXLS>, i: nat, fmt: Formatter): (r: (Outcome, Grid))
    ensures r.0.Done? <==> i > |rows|
    decreases |rows| + 1 - i
  {
    if i > |rows| then (Done, g)
    else if i == |rows| then (Panic(IndexOutOfBounds(i, |rows|)), g)
    else
      var g' := PutRow(g, i, WrittenCells(rows[i], fmt));
      if rows[i].orderStatus.Other? then (Panic(UnmappedStatus(i)), g')
      else Fill(g', rows, i + 1, fmt)
  }

  /** One courier's worksheet: header, then the data-row loop from 1. It
      completes exactly for the empty row set, leaving the header alone. */
  function ExportSheet(rows: seq<CourierXLS>, fmt: Formatter): (r: (Outcome, Grid))
    ensures r.0.Done? <==> rows == []
    ensures rows == [] ==> r.1 == HeaderGrid()
  {
    Fill(HeaderGrid(), rows, 1, fmt)
  }

  /** At any position `p`: the loop keeps a cell it finds, leaves rows
      before `i` as they were and adds cells only in rows `i` to |rows| - 1. */
  lemma {:induction false} FillFrameAt(g: Grid, rows: seq<CourierXLS>, i: nat, fmt: Formatter, p: (nat, nat))
    ensures p in g ==> p in Fill(g, rows, i, fmt).1
    ensures p in g && p.0 < i ==> Fill(g, rows, i, fmt).1[p] == g[p]
    ensures p in Fill(g, rows, i, fmt).1 && p !in g ==> i <= p.0 < |rows|
    decreases |rows| + 1 - i
  {
    if i < |rows| {
      var g' := PutRow(g, i, WrittenCells(rows[i], fmt));
      PutRowAt(g, i, WrittenCells(rows[i], fmt), p);
      if !rows[i].orderStatus.Other? {
        FillFrameAt(g', rows, i + 1, fmt, p);
      }
    }
  }

  /** A cell the loop from `i` adds at `p` is the cell of the input row with
      the same index in that column, and no row before it stopped the loop. */
  lemma {:induction false} FillCellAt(g: Grid, rows: seq<CourierXLS>, i: nat, fmt: Formatter, p: (nat, nat))
    requires p in Fill(g, rows, i, fmt).1 && p !in g
    ensures i <= p.0 < |rows| && MappedBetween(rows, i, p.0)
    ensures p.1 < |WrittenCells(rows[p.0], fmt)| && Fill(g, rows, i, fmt).1[p] == WrittenCells(rows[p.0], fmt)[p.1]
    decreases |rows| + 1 - i
  {
    var cs := WrittenCells(rows[i], fmt);
    var g' := PutRow(g, i, cs);
    PutRowAt(g, i, cs, p);
    if !rows[i].orderStatus.Other? {
      FillFrameAt(g', rows, i + 1, fmt, p);
      if p !in g' {
        FillCellAt(g', rows, i + 1, fmt, p);
      }
    }
  }

  /** Every cell of input row j, i <= j < |rows|, is written when no row
      from `i` up to j stops the loop. */
  lemma {:induction false} FillRowAt(g: Grid, rows: seq<CourierXLS>, i: nat, fmt: Formatter, p: (nat, nat))
    requires i <= p.0 < |rows| && p.1 < |WrittenCells(rows[p.0], fmt)| && MappedBetween(rows, i, p.0)
    ensures p in Fill(g, rows, i, fmt).1 && Fill(g, rows, i, fmt).1[p] == WrittenCells(rows[p.0], fmt)[p.1]
    decreases |rows| + 1 - i
  {
    var cs := WrittenCells(rows[i], fmt);
    var g' := PutRow(g, i, cs);
    PutRowAt(g, i, cs, p);
    if !rows[i].orderStatus.Other? {
      FillFrameAt(g', rows, i + 1, fmt, p);
      if i < p.0 {
        FillRowAt(g', rows, i + 1, fmt, p);
      }
    }
  }

  /** Which panic ends the loop started at `i`: the first unlabelled status
      at an index in [i, |rows|), otherwise the read at index |rows|. */
  lemma {:induction false} FillFault(g: Grid, rows: seq<CourierXLS>, i: nat, fmt: Formatter)
    requires i <= |rows|
    ensures MappedBetween(rows, i, |rows|) ==>
      Fill(g, rows, i, fmt).0 == Panic(IndexOutOfBounds(|rows|, |rows|))
    ensures forall k :: i <= k < |rows| && rows[k].orderStatus.Other? && MappedBetween(rows, i, k) ==>
      Fill(g, rows, i, fmt).0 == Panic(UnmappedStatus(k))
    decreases |rows| - i
  {
    if i < |rows| {
      var g' := PutRow(g, i, WrittenCells(rows[i], fmt));
      if !rows[i].orderStatus.Other? {
        FillFault(g', rows, i + 1, fmt);
        forall k | i < k < |rows| && MappedBetween(rows, i, k) ensures MappedBetween(rows, i + 1, k) {
        }
      }
    }
  }

  /** The loop from `i` reads only the rows from index `i` on: two row sets
      of the same length that agree there give the same outcome and grid. */
  lemma {:induction false} FillAgrees(g: Grid, a: seq<CourierXLS>, b: seq<CourierXLS>, i: nat, fmt: Formatter)
    requires |a| == |b| && forall j :: i <= j < |a| ==> a[j] == b[j]
    ensures Fill(g, a, i, fmt) == Fill(g, b, i, fmt)
    decreases |a| + 1 - i
  {
    if i < |a| {
      var g' := PutRow(g, i, WrittenCells(a[i], fmt));
      if !a[i].orderStatus.Other? {
        FillAgrees(g', a, b, i + 1, fmt);
      }
    }
  }

  /** Row 0 of the finished worksheet is the 14 header labels, as strings,
      and nothing else. */
  lemma ExportHeaderRow(rows: seq<CourierXLS>, fmt: Formatter)
    ensures var g := ExportSheet(rows, fmt).1;
      RowIs(g, 0, HeaderCells()) && forall p :: p in g && p.0 == 0 ==> p.1 < Columns
  {
    var g := ExportSheet(rows, fmt).1;
    forall c: nat | c < Columns ensures (0, c) in g && g[(0, c)] == HeaderCells()[c] {
      FillFrameAt(HeaderGrid(), rows, 1, fmt, (0, c));
    }
    forall p | p in g && p.0 == 0 ensures p.1 < Columns {
      FillFrameAt(HeaderGrid(), rows, 1, fmt, p);
    }
  }

  /** The data rows of the finished worksheet: a cell in sheet row i >= 1 is
      the cell of `rows[i]` in that column (one of all 14, or of the first 5
      when its status stopped the job), with 1 <= i < |rows| and no row in
      between unlabelled; every such row is there in full. So `rows[0]` is
      never written anywhere. */
  lemma ExportDataRows(rows: seq<CourierXLS>, fmt: Formatter)
    ensures var g := ExportSheet(rows, fmt).1;
      forall p :: p in g && p.0 >= 1 ==>
        p.0 < |rows| && MappedBetween(rows, 1, p.0) &&
        p.1 < |WrittenCells(rows[p.0], fmt)| && g[p] == WrittenCells(rows[p.0], fmt)[p.1]
    ensures var g := ExportSheet(rows, fmt).1;
      forall j :: 1 <= j < |rows| && MappedBetween(rows, 1, j) ==> RowIs(g, j, WrittenCells(rows[j], fmt))
  {
    var g := ExportSheet(rows, fmt).1;
    forall p | p in g && p.0 >= 1
      ensures p.0 < |rows| && MappedBetween(rows, 1, p.0)
      ensures p.1 < |WrittenCells(rows[p.0], fmt)| && g[p] == WrittenCells(rows[p.0], fmt)[p.1]
    {
      FillCellAt(HeaderGrid(), rows, 1, fmt, p);
    }
    forall j | 1 <= j < |rows| && MappedBetween(rows, 1, j) ensures RowIs(g, j, WrittenCells(rows[j], fmt)) {
      ExportRowIs(rows, fmt, j);
    }
  }

  /** `ExportDataRows` for one row. */
  lemma ExportRowIs(rows: seq<CourierXLS>, fmt: Formatter, j: nat)
    requires 1 <= j < |rows| && MappedBetween(rows, 1, j)
    ensures RowIs(ExportSheet(rows, fmt).1, j, WrittenCells(rows[j], fmt))
  {
    forall c: nat | c < |WrittenCells(rows[j], fmt)|
      ensures (j, c) in ExportSheet(rows, fmt).1 && ExportSheet(rows, fmt).1[(j, c)] == WrittenCells(rows[j], fmt)[c]
    {
      FillRowAt(HeaderGrid(), rows, 1, fmt, (j, c));
    }
  }

  /** A non-empty row set always panics: at the first unlabelled status among
      `rows[1..]`, or else at the read of `rows[|rows|]`. */
  lemma ExportFault(rows: seq<CourierXLS>, fmt: Formatter)
    requires |rows| > 0
    ensures MappedBetween(rows, 1, |rows|) ==>
      ExportSheet(rows, fmt).0 == Panic(IndexOutOfBounds(|rows|, |rows|))
    ensures forall k :: 1 <= k < |rows| && rows[k].orderStatus.Other? && MappedBetween(rows, 1, k) ==>
      ExportSheet(rows, fmt).0 == Panic(UnmappedStatus(k))
  {
    FillFault(HeaderGrid(), rows, 1, fmt);
  }

  /** Replacing the first input row changes nothing in the outcome or the sheet. */
  lemma ExportIgnoresFirstRow(rows: seq<CourierXLS>, x: CourierXLS, fmt: Formatter)
    requires |rows| > 0
    ensures ExportSheet(rows[0 := x], fmt) == ExportSheet(rows, fmt)
  {
    FillAgrees(HeaderGrid(), rows[0 := x], rows, 1, fmt);
  }

  /** The header writes: 14 string cells in row 0. */
  method WriteHeader(sheet: Worksheet)
    modifies sheet
    ensures sheet.cells == PutRow(old(sheet.cells), 0, HeaderCells())
  {
    ghost var g := sheet.cells;
    sheet.WriteString(0, 0, HeaderLabels[0]);
    sheet.WriteString(0, 1, HeaderLabels[1]);
    sheet.WriteString(0, 2, HeaderLabels[2]);
    sheet.WriteString(0, 3, HeaderLabels[3]);
    sheet.WriteString(0, 4, HeaderLabels[4]);
    PutRowFive(g, 0, HeaderCells()[..5]);
    sheet.WriteString(0, 5, HeaderLabels[5]);
    sheet.WriteString(0, 6, HeaderLabels[6]);
    sheet.WriteString(0, 7, HeaderLabels[7]);
    sheet.WriteString(0, 8, HeaderLabels[8]);
    sheet.WriteString(0, 9, HeaderLabels[9]);
    sheet.WriteString(0, 10, HeaderLabels[10]);
    sheet.WriteString(0, 11, HeaderLabels[11]);
    sheet.WriteString(0, 12, HeaderLabels[12]);
    sheet.WriteString(0, 13, HeaderLabels[13]);
    PutRowFourteen(g, 0, HeaderCells());
  }

  /** One pass of the data-row loop body for sheet row `i` and input row `r`:
      cell by cell from column 0; `ok` is false where the status `match`
      panics, after columns 0 to 4 have been written. */
  method WriteRow(sheet: Worksheet, i: nat, r: CourierXLS, fmt: Formatter) returns (ok: bool)
    modifies sheet
    ensures ok <==> !r.orderStatus.Other?
    ensures sheet.cells == PutRow(old(sheet.cells), i, WrittenCells(r, fmt))
  {
    ghost var g := sheet.cells;
    sheet.WriteString(i, 0, fmt.date(r.sessionDay));
    sheet.WriteString(i, 1, fmt.time(r.startTime));
    sheet.WriteString(i, 2, EndTimeText(r.endRealTime, fmt));
    sheet.WriteNumber(i, 3, r.orderId as int);
    sheet.WriteNumber(i, 4, Money(r.courierSalary));
    PutRowFive(g, i, LeadingCells(r, fmt));
    var status := StatusLabel(r.orderStatus);
    if status.None? {
      // the `_ => panic!()` arm
      return false;
    }
    sheet.WriteString(i, 5, status.value);
    sheet.WriteString(i, 6, r.details);
    sheet.WriteBoolean(i, 7, r.isBigOrder);
    sheet.WriteString(i, 8, fmt.time(r.cookingTime));
    sheet.WriteString(i, 9, fmt.dateTime(r.deliveryDatetime));
    sheet.WriteNumber(i, 10, Money(r.orderPrice));
    sheet.WriteString(i, 11, r.deliveryAddress);
    sheet.WriteString(i, 12, r.clientComment);
    sheet.WriteString(i, 13, PayLabel(r.payMethod));
    ghost var cs := WrittenCells(r, fmt);
    ghost var trail := TrailingCells(r, fmt);
    assert cs == LeadingCells(r, fmt) + [Str(status.value)] + trail;
    assert cs[5] == Str(status.value) && cs[6..] == trail;
    PutRowFourteen(g, i, cs);
    ok := true;
  }

  /** The data-row loop `for i in 1..=rows.len()`, reading `rows[i]`. */
  method FillRows(sheet: Worksheet, rows: seq<CourierXLS>, fmt: Formatter) returns (o: Outcome)
    modifies sheet
    ensures (o, sheet.cells) == Fill(old(sheet.cells), rows, 1, fmt)
  {
    var i: nat := 1;
    while i <= |rows|
      invariant 1 <= i <= |rows| + 1
      invariant Fill(old(sheet.cells), rows, 1, fmt) == Fill(sheet.cells, rows, i, fmt)
    {
      if i >= |rows| {
        // `rows[ind]` with ind == rows.len()
        return Panic(IndexOutOfBounds(i, |rows|));
      }
      var ok := WriteRow(sheet, i, rows[i], fmt);
      if !ok {
        return Panic(UnmappedStatus(i));
      }
      i := i + 1;
    }
    o := Done;
  }

  /** The loop as evidently intended, over indices 0 to |rows| - 1: input
      row k goes to sheet row k + 1. */
  function FillCorrected(g: Grid, rows: seq<CourierXLS>, k: nat, fmt: Formatter): (r: (Outcome, Grid))
    ensures r.0.Done? <==> MappedBetween(rows, k, |rows|)
    decreases |rows| - k
  {
    if k >= |rows| then (Done, g)
    else
      var g' := PutRow(g, k + 1, WrittenCells(rows[k], fmt));
      if rows[k].orderStatus.Other? then (Panic(UnmappedStatus(k)), g')
      else FillCorrected(g', rows, k + 1, fmt)
  }

  /** One courier's worksheet with the corrected loop: it completes exactly
      when every status has a label. */
  function ExportSheetCorrected(rows: seq<CourierXLS>, fmt: Formatter): (r: (Outcome, Grid))
    ensures r.0.Done? <==> MappedBetween(rows, 0, |rows|)
  {
    FillCorrected(HeaderGrid(), rows, 0, fmt)
  }

  /** At any position `p` in a row up to `k`, the corrected loop from `k`
      keeps the cell of `g`. */
  lemma {:induction false} FillCorrectedKeeps(g: Grid, rows: seq<CourierXLS>, k: nat, fmt: Formatter, p: (nat, nat))
    requires p in g && p.0 <= k
    ensures p in FillCorrected(g, rows, k, fmt).1 && FillCorrected(g, rows, k, fmt).1[p] == g[p]
    decreases |rows| - k
  {
    if k < |rows| {
      var cs := WrittenCells(rows[k], fmt);
      PutRowAt(g, k + 1, cs, p);
      if !rows[k].orderStatus.Other? {
        FillCorrectedKeeps(PutRow(g, k + 1, cs), rows, k + 1, fmt, p);
      }
    }
  }

  /** When no status from index `k` up to `j` is unlabelled, the corrected
      loop from `k` writes column `c` of input row `j`, k <= j, to sheet
      row j + 1. */
  lemma {:induction false} FillCorrectedCell(g: Grid, rows: seq<CourierXLS>, k: nat, fmt: Formatter, j: nat, c: nat)
    requires MappedBetween(rows, k, j) && k <= j < |rows| && c < |WrittenCells(rows[j], fmt)|
    ensures (j + 1, c) in FillCorrected(g, rows, k, fmt).1
    ensures FillCorrected(g, rows, k, fmt).1[(j + 1, c)] == WrittenCells(rows[j], fmt)[c]
    decreases |rows| - k
  {
    var cs := WrittenCells(rows[k], fmt);
    var g' := PutRow(g, k + 1, cs);
    if k == j {
      PutRowAt(g, k + 1, cs, (j + 1, c));
      if !rows[k].orderStatus.Other? {
        FillCorrectedKeeps(g', rows, k + 1, fmt, (j + 1, c));
      }
    } else {
      FillCorrectedCell(g', rows, k + 1, fmt, j, c);
    }
  }

  /** With the corrected loop a row set whose statuses all have labels is
      written in full: the header in row 0 and `rows[k]` in sheet row k + 1. */
  lemma ExportSheetCorrectedRows(rows: seq<CourierXLS>, fmt: Formatter)
    requires MappedBetween(rows, 0, |rows|)
    ensures var g := ExportSheetCorrected(rows, fmt).1;
      RowIs(g, 0, HeaderCells()) &&
      forall k :: 0 <= k < |rows| ==> RowIs(g, k + 1, RowCells(rows[k], fmt).value)
  {
    var g := ExportSheetCorrected(rows, fmt).1;
    forall c: nat | c < Columns ensures (0, c) in g && g[(0, c)] == HeaderCells()[c] {
      FillCorrectedKeeps(HeaderGrid(), rows, 0, fmt, (0, c));
    }
    forall k | 0 <= k < |rows| ensures RowIs(g, k + 1, RowCells(rows[k], fmt).value) {
      ExportCorrectedRowIs(rows, fmt, k);
    }
  }

  /** `ExportSheetCorrectedRows` for one input row. */
  lemma ExportCorrectedRowIs(rows: seq<CourierXLS>, fmt: Formatter, k: nat)
    requires MappedBetween(rows, 0, |rows|) && k < |rows|
    ensures RowIs(ExportSheetCorrected(rows, fmt).1, k + 1, RowCells(rows[k], fmt).value)
  {
    var g := FillCorrected(HeaderGrid(), rows, 0, fmt).1;
    var cs := WrittenCells(rows[k], fmt);
    assert !rows[k].orderStatus.Other?;
    assert cs == RowCells(rows[k], fmt).value;
    var row: nat := k + 1;
    forall c: nat | c < |cs| ensures (row, c) in g && g[(row, c)] == cs[c] {
      FillCorrectedCell(HeaderGrid(), rows, 0, fmt, k, c);
    }
  }

  /** A single row with a labelled status: as written the job panics on it,
      corrected it completes. */
  lemma OffByOneWitness(r: CourierXLS, fmt: Formatter)
    requires !r.orderStatus.Other?
    ensures ExportSheet([r], fmt).0 == Panic(IndexOutOfBounds(1, 1))
    ensures ExportSheetCorrected([r], fmt).0 == Done
  {
  }
}
