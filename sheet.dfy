/**
  The spreadsheet library the exporter writes through, reduced to what it
  does with cells: a worksheet is a grid from (row, column) to a cell, a
  workbook owns one worksheet and `close` stores the grid under the
  workbook's path.
 */
module Sheet {
  import opened Cells

  type Grid = map<(nat, nat), Cell>

  /** `g` after writing the cells `cs` into row `row`, column 0 first. */
  function PutRow(g: Grid, row: nat, cs: seq<Cell>): Grid
    decreases |cs|
  {
    if cs == [] then g
    else PutRow(g, row, cs[..|cs| - 1])[(row, |cs| - 1) := cs[|cs| - 1]]
  }

  /** Writing row `row` covers columns 0 to |cs| - 1 with `cs` and keeps
      every other cell of `g`, at any one position `p`. */
  lemma {:induction false} PutRowAt(g: Grid, row: nat, cs: seq<Cell>, p: (nat, nat))
    ensures p in PutRow(g, row, cs) <==> p in g || (p.0 == row && p.1 < |cs|)
    ensures p in PutRow(g, row, cs) ==>
      PutRow(g, row, cs)[p] == if p.0 == row && p.1 < |cs| then cs[p.1] else g[p]
    decreases |cs|
  {
    if cs != [] {
      PutRowAt(g, row, cs[..|cs| - 1], p);
    }
  }

  /** `PutRowAt` at every position. */
  lemma PutRowCells(g: Grid, row: nat, cs: seq<Cell>)
    ensures forall p: (nat, nat) :: p in PutRow(g, row, cs) <==> p in g || (p.0 == row && p.1 < |cs|)
    ensures forall p: (nat, nat) :: p in PutRow(g, row, cs) ==>
      PutRow(g, row, cs)[p] == if p.0 == row && p.1 < |cs| then cs[p.1] else g[p]
  {
    forall p: (nat, nat) ensures p in PutRow(g, row, cs) <==> p in g || (p.0 == row && p.1 < |cs|) {
      PutRowAt(g, row, cs, p);
    }
    forall p: (nat, nat) | p in PutRow(g, row, cs)
      ensures PutRow(g, row, cs)[p] == if p.0 == row && p.1 < |cs| then cs[p.1] else g[p]
    {
      PutRowAt(g, row, cs, p);
    }
  }

  /** Writing one more cell at the end of a row extends the row. */
  lemma PutRowSnoc(g: Grid, row: nat, cs: seq<Cell>, k: nat)
    requires k < |cs|
    ensures PutRow(g, row, cs[..k + 1]) == PutRow(g, row, cs[..k])[(row, k) := cs[k]]
  {
    assert cs[..k + 1][..k] == cs[..k];
  }

  /** A row of five cells is the five single-cell writes, column 0 first. */
  lemma PutRowFive(g: Grid, row: nat, cs: seq<Cell>)
    requires |cs| == 5
    ensures PutRow(g, row, cs) ==
      g[(row, 0) := cs[0]][(row, 1) := cs[1]][(row, 2) := cs[2]][(row, 3) := cs[3]][(row, 4) := cs[4]]
  {
    assert cs[..0] == [];
    PutRowSnoc(g, row, cs, 0);
    PutRowSnoc(g, row, cs, 1);
    PutRowSnoc(g, row, cs, 2);
    PutRowSnoc(g, row, cs, 3);
    PutRowSnoc(g, row, cs, 4);
    assert cs[..5] == cs;
  }

  /** Columns 5 to 9 of a row of fourteen cells, one write each. */
  lemma PutRowMiddle(g: Grid, row: nat, cs: seq<Cell>)
    requires |cs| == 14
    ensures PutRow(g, row, cs[..10]) ==
      PutRow(g, row, cs[..5])[(row, 5) := cs[5]][(row, 6) := cs[6]][(row, 7) := cs[7]][(row, 8) := cs[8]][(row, 9) := cs[9]]
  {
    PutRowSnoc(g, row, cs, 5);
    PutRowSnoc(g, row, cs, 6);
    PutRowSnoc(g, row, cs, 7);
    PutRowSnoc(g, row, cs, 8);
    PutRowSnoc(g, row, cs, 9);
  }

  /** A row of fourteen cells is its first five writes followed by the other nine. */
  lemma PutRowFourteen(g: Grid, row: nat, cs: seq<Cell>)
    requires |cs| == 14
    ensures PutRow(g, row, cs) ==
      PutRow(g, row, cs[..5])[(row, 5) := cs[5]][(row, 6) := cs[6]][(row, 7) := cs[7]][(row, 8) := cs[8]]
        [(row, 9) := cs[9]][(row, 10) := cs[10]][(row, 11) := cs[11]][(row, 12) := cs[12]][(row, 13) := cs[13]]
  {
    PutRowMiddle(g, row, cs);
    PutRowSnoc(g, row, cs, 10);
    PutRowSnoc(g, row, cs, 11);
    PutRowSnoc(g, row, cs, 12);
    PutRowSnoc(g, row, cs, 13);
    assert cs[..14] == cs;
  }

  /** The worksheet returned by `add_worksheet`. The library's own failures,
      which the exporter `unwrap`s, are not modelled. */
  class Worksheet {
    var cells: Grid

    constructor ()
      ensures cells == map[]
    {
      cells := map[];
    }

    method WriteString(row: nat, col: nat, s: string)
      modifies this
      ensures cells == old(cells)[(row, col) := Str(s)]
    {
      cells := cells[(row, col) := Str(s)];
    }

    method WriteNumber(row: nat, col: nat, n: int)
      modifies this
      ensures cells == old(cells)[(row, col) := Num(n)]
    {
      cells := cells[(row, col) := Num(n)];
    }

    method WriteBoolean(row: nat, col: nat, b: bool)
      modifies this
      ensures cells == old(cells)[(row, col) := Bool(b)]
    {
      cells := cells[(row, col) := Bool(b)];
    }
  }

  /** The saved files, by path. */
  class FileSystem {
    var files: map<string, Grid>

    constructor (initial: map<string, Grid>)
      ensures files == initial
    {
      files := initial;
    }
  }

  /** A workbook under construction at `path`, with at most one worksheet. */
  class Workbook {
    const path: string
    var sheet: Worksheet?

    /** `Workbook::new(path)`: nothing is written until `close`. */
    constructor (path: string)
      ensures this.path == path && sheet == null
    {
      this.path := path;
      sheet := null;
    }

    /** `add_worksheet(None)`: a fresh, empty worksheet. */
    method AddWorksheet() returns (s: Worksheet)
      modifies this
      ensures fresh(s) && s.cells == map[] && sheet == s
    {
      s := new Worksheet();
      sheet := s;
    }

    /** `close()`: the file at `path` now holds the worksheet's cells,
        replacing whatever was there; a workbook without a worksheet is
        saved with one empty sheet. */
    method Close(fs: FileSystem)
      modifies fs
      ensures fs.files == old(fs.files)[path := if sheet == null then map[] else sheet.cells]
    {
      fs.files := fs.files[path := if sheet == null then map[] else sheet.cells];
    }
  }
}
