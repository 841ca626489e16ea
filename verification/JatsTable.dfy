/** `claimstone/jats.py`, `_table`: row and column spans placed first-fit into a sparse grid.
    The XML is parsed already: a row is the list of its children, cells and anything else. */
module JatsTable {
  import opened Seqs

  /** A `td` or `th` carries its text and its raw span attributes; other children are skipped. */
  datatype Child = Cell(text: string, rowspan: Option<string>, colspan: Option<string>) | Other

  datatype Refusal = BadSpan | RowspanPastEnd | Overlap | NoRows | NoCells
  datatype Outcome<+T> = Ok(value: T) | Refused(reason: Refusal)

  // ---------- span attributes ----------

  predicate IsDigit(c: char) { '0' <= c <= '9' }

  predicate Digits(s: string) { forall i :: 0 <= i < |s| ==> IsDigit(s[i]) }

  function Number(digits: string): nat
    requires Digits(digits)
  {
    if digits == "" then 0
    else
      var last := digits[|digits| - 1];
      Number(digits[..|digits| - 1]) * 10 + (last as int - '0' as int)
  }

  /** Spans default to one and must be whole numbers from 1 to 1000; zero is refused. */
  function Span(raw: Option<string>): (r: Option<nat>)
    ensures r.Some? ==> 1 <= r.value <= 1000
    ensures raw.None? ==> r == Some(1)
  {
    assert "1"[..0] == "";
    var s := if raw.Some? then raw.value else "1";
    if s == "" || !Digits(s) then None
    else if 1 <= Number(s) <= 1000 then Some(Number(s)) else None
  }

  // ---------- the declarative layout ----------

  datatype Placed = Placed(row: nat, cell: Child)
  datatype Block = Block(row: nat, column: nat, down: nat, across: nat, text: string)

  predicate Covers(b: Block, r: nat, c: nat) {
    b.row <= r < b.row + b.down && b.column <= c < b.column + b.across
  }

  ghost predicate Covered(blocks: seq<Block>, r: nat, c: nat) {
    exists i :: 0 <= i < |blocks| && Covers(blocks[i], r, c)
  }

  /** Where the search for a free column starts: after the previous cell of the same row. */
  function Start(blocks: seq<Block>, row: nat): nat {
    if blocks != [] && blocks[|blocks| - 1].row == row
    then blocks[|blocks| - 1].column + blocks[|blocks| - 1].across else 0
  }

  /** `b` is where first-fit puts `p` after `before`: the spans it asked for, the first column of
      its row not yet taken, wholly inside the table, on squares nothing else owns. */
  ghost predicate PutsAt(before: seq<Block>, p: Placed, height: nat, b: Block) {
    && p.cell.Cell? && b.text == p.cell.text && b.row == p.row
    && Span(p.cell.rowspan) == Some(b.down) && Span(p.cell.colspan) == Some(b.across)
    && FirstFree(before, p.row, b.column)
    && b.row + b.down <= height
    && forall r: nat, c: nat :: Covers(b, r, c) ==> !Covered(before, r, c)
  }

  ghost predicate FirstFree(before: seq<Block>, row: nat, column: nat) {
    && Start(before, row) <= column
    && !Covered(before, row, column)
    && forall c: nat :: Start(before, row) <= c < column ==> Covered(before, row, c)
  }

  ghost predicate IsLayout(cells: seq<Placed>, height: nat, blocks: seq<Block>) {
    && |blocks| == |cells|
    && forall i :: 0 <= i < |cells| ==> PutsAt(blocks[..i], cells[i], height, blocks[i])
  }

  function RowCells(row: nat, children: seq<Child>): seq<Placed> {
    if children == [] then []
    else RowCells(row, children[..|children| - 1])
         + (if children[|children| - 1].Cell? then [Placed(row, children[|children| - 1])] else [])
  }

  /** Every cell of the table in document order, with the index of its row. */
  function AllCells(rows: seq<seq<Child>>): seq<Placed> {
    if rows == [] then []
    else AllCells(rows[..|rows| - 1]) + RowCells(|rows| - 1, rows[|rows| - 1])
  }

  /** The rectangle a layout fills: each block's text in its first square, blanks elsewhere. */
  ghost predicate Shows(output: seq<seq<string>>, height: nat, width: nat, blocks: seq<Block>) {
    && |output| == height && (forall r :: 0 <= r < height ==> |output[r]| == width)
    && (forall b :: b in blocks ==> b.row + b.down <= height && b.column + b.across <= width)
    && (width > 0 ==> exists b :: b in blocks && b.column + b.across == width)
    && (forall r: nat, c: nat | r < height && c < width :: output[r][c] == Entry(blocks, r, c))
  }

  function Entry(blocks: seq<Block>, r: nat, c: nat): string {
    if blocks == [] then ""
    else var b := blocks[|blocks| - 1];
      if b.row == r && b.column == c then b.text else Entry(blocks[..|blocks| - 1], r, c)
  }

  // ---------- the algorithm ----------

  /** The grid holds exactly the covered squares, with each block's text in its first square. */
  ghost predicate Holds(grid: map<(nat, nat), string>, width: nat, blocks: seq<Block>) {
    && (forall r: nat, c: nat :: (r, c) in grid <==> Covered(blocks, r, c))
    && (forall r: nat, c: nat :: (r, c) in grid ==> grid[(r, c)] == Entry(blocks, r, c))
    && (forall i :: 0 <= i < |blocks| ==> blocks[i].column + blocks[i].across <= width)
  }

  method FreeColumn(grid: map<(nat, nat), string>, width: nat, row: nat, start: nat, ghost blocks: seq<Block>)
      returns (column: nat)
    requires Holds(grid, width, blocks) && start == Start(blocks, row)
    ensures FirstFree(blocks, row, column)
  {
    column := start;
    while (row, column) in grid
      invariant start <= column
      invariant forall c: nat :: start <= c < column ==> Covered(blocks, row, c)
      decreases width - column
    {
      ghost var i :| 0 <= i < |blocks| && Covers(blocks[i], row, column);
      column := column + 1;
    }
  }

  function Mark(b: Block, r: nat, c: nat): string {
    if r == b.row && c == b.column then b.text else ""
  }

  predicate Done(b: Block, r: nat, c: nat, dr: nat, dc: nat) {
    Covers(b, r, c) && (r < b.row + dr || (r == b.row + dr && c < b.column + dc))
  }

  ghost predicate Filled(grid: map<(nat, nat), string>, b: Block, dr: nat, dc: nat, filled: map<(nat, nat), string>) {
    && (forall r: nat, c: nat :: Done(b, r, c, dr, dc) ==> (r, c) !in grid)
    && (forall r: nat, c: nat :: (r, c) in filled <==> (r, c) in grid || Done(b, r, c, dr, dc))
    && (forall r: nat, c: nat :: (r, c) in grid ==> filled[(r, c)] == grid[(r, c)])
    && (forall r: nat, c: nat :: Done(b, r, c, dr, dc) ==> filled[(r, c)] == Mark(b, r, c))
  }

  /** Fill one block square by square; stop at the first square already taken. */
  method Fill(grid: map<(nat, nat), string>, b: Block)
      returns (ok: bool, filled: map<(nat, nat), string>)
    ensures ok <==> forall r: nat, c: nat :: Covers(b, r, c) ==> (r, c) !in grid
    ensures ok ==> Filled(grid, b, b.down, 0, filled)
  {
    filled := grid;
    for dr := 0 to b.down
      invariant Filled(grid, b, dr, 0, filled)
    {
      for dc := 0 to b.across
        invariant Filled(grid, b, dr, dc, filled)
      {
        var position: (nat, nat) := (b.row + dr, b.column + dc);
        if position in filled {
          assert Covers(b, position.0, position.1);
          return false, filled;
        }
        filled := filled[position := if dr == 0 && dc == 0 then b.text else ""];
        assert forall r: nat, c: nat :: Done(b, r, c, dr, dc + 1) <==>
          Done(b, r, c, dr, dc) || (r, c) == position;
      }
      assert forall r: nat, c: nat :: Done(b, r, c, dr, b.across) <==> Done(b, r, c, dr + 1, 0);
    }
    assert forall r: nat, c: nat :: Covers(b, r, c) <==> Done(b, r, c, b.down, 0);
    ok := true;
  }

  /** What is wrong with the first cell that cannot be placed. */
  ghost predicate Fault(before: seq<Block>, p: Placed, height: nat, reason: Refusal)
    requires p.cell.Cell?
  {
    var down, across := Span(p.cell.rowspan), Span(p.cell.colspan);
    match reason
    case BadSpan => down.None? || across.None?
    case RowspanPastEnd => down.Some? && across.Some? && p.row + down.value > height
    case Overlap => down.Some? && across.Some? && p.row + down.value <= height
      && exists column: nat, r: nat, c: nat :: FirstFree(before, p.row, column)
           && Covers(Block(p.row, column, down.value, across.value, p.cell.text), r, c) && Covered(before, r, c)
    case _ => false
  }

  lemma CoveredSnoc(blocks: seq<Block>, b: Block)
    ensures forall r: nat, c: nat :: Covered(blocks + [b], r, c) <==> Covered(blocks, r, c) || Covers(b, r, c)
  {
    var more := blocks + [b];
    forall r: nat, c: nat ensures Covered(more, r, c) <==> Covered(blocks, r, c) || Covers(b, r, c) {
      if Covered(blocks, r, c) {
        var i :| 0 <= i < |blocks| && Covers(blocks[i], r, c);
        assert Covers(more[i], r, c);
      }
      if Covers(b, r, c) {
        assert Covers(more[|blocks|], r, c);
      }
    }
  }

  lemma HoldsSnoc(grid: map<(nat, nat), string>, width: nat, blocks: seq<Block>, b: Block,
                  filled: map<(nat, nat), string>, wider: nat)
    requires Holds(grid, width, blocks) && Filled(grid, b, b.down, 0, filled)
    requires forall x :: x in blocks + [b] ==> x.down > 0 && x.across > 0
    requires width <= wider && b.column + b.across <= wider
    ensures Holds(filled, wider, blocks + [b])
  {
    CoveredSnoc(blocks, b);
    assert (blocks + [b])[..|blocks|] == blocks;
    assert (blocks + [b])[|blocks|] == b;
    forall r: nat, c: nat ensures Done(b, r, c, b.down, 0) <==> Covers(b, r, c) {}
    forall r: nat, c: nat | (r, c) in filled ensures filled[(r, c)] == Entry(blocks + [b], r, c) {
      if Covers(b, r, c) && !(r == b.row && c == b.column) {
        UncoveredIsBlank(blocks, r, c);
      }
    }
  }

  lemma {:induction false} UncoveredIsBlank(blocks: seq<Block>, r: nat, c: nat)
    requires !Covered(blocks, r, c)
    requires forall b :: b in blocks ==> b.down > 0 && b.across > 0
    ensures Entry(blocks, r, c) == ""
  {
    if blocks != [] {
      var n := |blocks| - 1;
      assert blocks[n] in blocks;
      assert !Covers(blocks[n], r, c);
      assert !Covered(blocks[..n], r, c) by {
        forall i | 0 <= i < n ensures !Covers(blocks[..n][i], r, c) {
          assert blocks[..n][i] == blocks[i];
        }
      }
      UncoveredIsBlank(blocks[..n], r, c);
    }
  }

  ghost predicate Positive(blocks: seq<Block>) {
    forall b :: b in blocks ==> b.down > 0 && b.across > 0
  }

  method PlaceCell(grid: map<(nat, nat), string>, width: nat, column: nat, row: nat, cell: Child, height: nat,
                   ghost blocks: seq<Block>)
      returns (fault: Option<Refusal>, filled: map<(nat, nat), string>, wider: nat, next: nat, ghost b: Block)
    requires cell.Cell? && Holds(grid, width, blocks) && Positive(blocks) && column == Start(blocks, row)
    ensures fault.Some? ==> Fault(blocks, Placed(row, cell), height, fault.value)
    ensures fault.None? ==> PutsAt(blocks, Placed(row, cell), height, b) && Holds(filled, wider, blocks + [b])
    ensures fault.None? ==> next == b.column + b.across && wider == if width < next then next else width
  {
    var free := FreeColumn(grid, width, row, column, blocks);
    var down, across := Span(cell.rowspan), Span(cell.colspan);
    filled, wider, next, b := grid, width, free, Block(row, free, 0, 0, "");
    if down.None? || across.None? {
      return Some(BadSpan), filled, wider, next, b;
    }
    if row + down.value > height {
      return Some(RowspanPastEnd), filled, wider, next, b;
    }
    var block := Block(row, free, down.value, across.value, cell.text);
    b := block;
    var ok;
    ok, filled := Fill(grid, block);
    if !ok {
      ghost var r: nat, c: nat :| Covers(b, r, c) && (r, c) in grid;
      assert Covered(blocks, r, c);
      return Some(Overlap), filled, wider, next, b;
    }
    fault := None;
    next := free + across.value;
    wider := if width < next then next else width;
    HoldsSnoc(grid, width, blocks, b, filled, wider);
  }

  lemma IsLayoutSnoc(cells: seq<Placed>, height: nat, blocks: seq<Block>, p: Placed, b: Block)
    requires IsLayout(cells, height, blocks) && PutsAt(blocks, p, height, b)
    ensures IsLayout(cells + [p], height, blocks + [b])
  {
    var more := blocks + [b];
    forall i | 0 <= i < |more| ensures PutsAt(more[..i], (cells + [p])[i], height, more[i]) {
      if i < |blocks| {
        assert more[..i] == blocks[..i];
      } else {
        assert more[..i] == blocks;
      }
    }
  }

  lemma PlaceIsUnique(before: seq<Block>, p: Placed, height: nat, a: Block, b: Block)
    requires PutsAt(before, p, height, a) && PutsAt(before, p, height, b)
    ensures a == b
  {}

  /** First-fit leaves no choice: two layouts of the same cells are the same layout. */
  lemma {:induction false} LayoutIsUnique(cells: seq<Placed>, height: nat, a: seq<Block>, b: seq<Block>)
    requires IsLayout(cells, height, a) && IsLayout(cells, height, b)
    ensures a == b
  {
    hide PutsAt;
    if cells != [] {
      var n := |cells| - 1;
      LayoutPrefix(cells, height, a, n);
      LayoutPrefix(cells, height, b, n);
      LayoutIsUnique(cells[..n], height, a[..n], b[..n]);
      PlaceIsUnique(a[..n], cells[n], height, a[n], b[n]);
      assert a == a[..n] + [a[n]] && b == b[..n] + [b[n]];
    }
  }

  lemma {:induction false} LayoutPrefix(cells: seq<Placed>, height: nat, blocks: seq<Block>, n: nat)
    requires IsLayout(cells, height, blocks) && n <= |cells|
    ensures IsLayout(cells[..n], height, blocks[..n])
  {
    forall i | 0 <= i < n ensures PutsAt(blocks[..n][..i], cells[..n][i], height, blocks[..n][i]) {
      assert blocks[..n][..i] == blocks[..i];
    }
  }

  ghost predicate HasLayout(rows: seq<seq<Child>>) {
    exists blocks :: IsLayout(AllCells(rows), |rows|, blocks)
  }

  lemma FaultMeansNoPlace(before: seq<Block>, p: Placed, height: nat, reason: Refusal, b: Block)
    requires p.cell.Cell? && Fault(before, p, height, reason)
    ensures !PutsAt(before, p, height, b)
  {}

  lemma FaultMeansNoLayout(cells: seq<Placed>, n: nat, height: nat, before: seq<Block>, reason: Refusal, q: seq<Block>)
    requires n < |cells| && cells[n].cell.Cell?
    requires IsLayout(cells[..n], height, before) && Fault(before, cells[n], height, reason)
    ensures !IsLayout(cells, height, q)
  {
    if |q| == |cells| {
      FaultMeansNoPlace(before, cells[n], height, reason, q[n]);
      if IsLayout(cells, height, q) {
        LayoutPrefix(cells, height, q, n);
        LayoutIsUnique(cells[..n], height, before, q[..n]);
        assert false;
      }
    }
  }

  lemma RowsOfCells(rows: seq<seq<Child>>, r: nat, j: nat)
    requires r < |rows| && j <= |rows[r]|
    ensures var cells := AllCells(rows[..r]) + RowCells(r, rows[r][..j]); cells <= AllCells(rows)
    ensures forall i :: 0 <= i < |AllCells(rows[..r])| ==> AllCells(rows[..r])[i].row < r
  {
    AllCellsPrefix(rows, r + 1);
    assert rows[..r + 1][..r] == rows[..r];
    RowCellsPrefix(r, rows[r], j);
    RowsBelow(rows[..r]);
  }

  lemma {:induction false} RowsBelow(rows: seq<seq<Child>>)
    ensures forall i :: 0 <= i < |AllCells(rows)| ==> AllCells(rows)[i].row < |rows|
    ensures forall i :: 0 <= i < |AllCells(rows)| ==> AllCells(rows)[i].cell.Cell?
    ensures forall i, j :: 0 <= i < j < |AllCells(rows)| ==> AllCells(rows)[i].row <= AllCells(rows)[j].row
  {
    if rows != [] {
      var n := |rows| - 1;
      RowsBelow(rows[..n]);
      RowCellsRow(n, rows[n]);
    }
  }

  lemma {:induction false} RowCellsRow(row: nat, children: seq<Child>)
    ensures forall p :: p in RowCells(row, children) ==> p.row == row && p.cell.Cell?
  {
    if children != [] { RowCellsRow(row, children[..|children| - 1]); }
  }

  lemma {:induction false} AllCellsPrefix(rows: seq<seq<Child>>, n: nat)
    requires n <= |rows|
    ensures AllCells(rows[..n]) <= AllCells(rows)
    decreases |rows|
  {
    if n < |rows| {
      var m := |rows| - 1;
      assert rows[..m][..n] == rows[..n];
      AllCellsPrefix(rows[..m], n);
    } else {
      assert rows[..n] == rows;
    }
  }

  lemma {:induction false} RowCellsPrefix(row: nat, children: seq<Child>, n: nat)
    requires n <= |children|
    ensures RowCells(row, children[..n]) <= RowCells(row, children)
    decreases |children|
  {
    if n < |children| {
      var m := |children| - 1;
      assert children[..m][..n] == children[..n];
      RowCellsPrefix(row, children[..m], n);
    } else {
      assert children[..n] == children;
    }
  }

  /** The state between cells: a layout of the cells so far, and the grid that shows it. */
  ghost predicate Progress(rows: seq<seq<Child>>, grid: map<(nat, nat), string>, width: nat, blocks: seq<Block>) {
    && |blocks| <= |AllCells(rows)| && IsLayout(AllCells(rows)[..|blocks|], |rows|, blocks)
    && Holds(grid, width, blocks) && Positive(blocks) && WidthReached(width, blocks)
  }

  ghost predicate Stuck(rows: seq<seq<Child>>, blocks: seq<Block>, reason: Refusal) {
    var cells, n := AllCells(rows), |blocks|;
    && n < |cells| && cells[n].cell.Cell?
    && IsLayout(cells[..n], |rows|, blocks) && Fault(blocks, cells[n], |rows|, reason)
  }

  lemma StuckMeansNoLayout(rows: seq<seq<Child>>, blocks: seq<Block>, reason: Refusal)
    requires Stuck(rows, blocks, reason)
    ensures !HasLayout(rows)
  {
    forall q ensures !IsLayout(AllCells(rows), |rows|, q) {
      FaultMeansNoLayout(AllCells(rows), |blocks|, |rows|, blocks, reason, q);
    }
  }

  method PlaceNext(rows: seq<seq<Child>>, row: nat, cell: Child, column: nat, grid: map<(nat, nat), string>,
                   width: nat, ghost blocks: seq<Block>)
      returns (fault: Option<Refusal>, filled: map<(nat, nat), string>, wider: nat, next: nat, ghost more: seq<Block>)
    requires |blocks| < |AllCells(rows)| && AllCells(rows)[|blocks|] == Placed(row, cell) && cell.Cell?
    requires Progress(rows, grid, width, blocks) && column == Start(blocks, row)
    ensures fault.Some? ==> Stuck(rows, more, fault.value)
    ensures fault.None? ==> |more| == |blocks| + 1 && Progress(rows, filled, wider, more)
    ensures fault.None? ==> next == Start(more, row)
  {
    hide Span, AllCells, IsLayout, Holds;
    ghost var b;
    fault, filled, wider, next, b := PlaceCell(grid, width, column, row, cell, |rows|, blocks);
    if fault.Some? {
      more := blocks;
    } else {
      more := blocks + [b];
      LayoutGrows(rows, blocks, b);
      WidthSnoc(wider, blocks, b);
    }
  }

  lemma LayoutGrows(rows: seq<seq<Child>>, blocks: seq<Block>, b: Block)
    requires |blocks| < |AllCells(rows)| && IsLayout(AllCells(rows)[..|blocks|], |rows|, blocks)
    requires PutsAt(blocks, AllCells(rows)[|blocks|], |rows|, b)
    ensures IsLayout(AllCells(rows)[..|blocks| + 1], |rows|, blocks + [b])
  {
    var cells := AllCells(rows);
    IsLayoutSnoc(cells[..|blocks|], |rows|, blocks, cells[|blocks|], b);
    assert cells[..|blocks| + 1] == cells[..|blocks|] + [cells[|blocks|]];
  }

  /** How many cells come before child `j` of row `row`. */
  function CellsBefore(rows: seq<seq<Child>>, row: nat, j: nat): nat
    requires row < |rows| && j <= |rows[row]|
  {
    |AllCells(rows[..row])| + |RowCells(row, rows[row][..j])|
  }

  method PlaceRow(rows: seq<seq<Child>>, row: nat, grid: map<(nat, nat), string>, width: nat, ghost blocks: seq<Block>)
      returns (fault: Option<Refusal>, filled: map<(nat, nat), string>, wider: nat, ghost more: seq<Block>)
    requires row < |rows| && |blocks| == CellsBefore(rows, row, 0) && Progress(rows, grid, width, blocks)
    ensures fault.Some? ==> Stuck(rows, more, fault.value)
    ensures fault.None? ==> |more| == CellsBefore(rows, row, |rows[row]|) && Progress(rows, filled, wider, more)
  {
    StartsAtZero(rows, row, blocks);
    hide *;
    filled, wider, more := grid, width, blocks;
    var column: nat := 0;
    for j := 0 to |rows[row]|
      invariant |more| == CellsBefore(rows, row, j) && Progress(rows, filled, wider, more)
      invariant column == Start(more, row)
    {
      NextCell(rows, row, j);
      if rows[row][j].Cell? {
        fault, filled, wider, column, more := PlaceNext(rows, row, rows[row][j], column, filled, wider, more);
        if fault.Some? {
          return;
        }
      }
    }
    fault := None;
  }

  lemma RowEnds(rows: seq<seq<Child>>, row: nat)
    requires row < |rows|
    ensures CellsBefore(rows, row, |rows[row]|) == |AllCells(rows[..row + 1])|
    ensures CellsBefore(rows, row, 0) == |AllCells(rows[..row])|
  {
    assert rows[row][..|rows[row]|] == rows[row];
    assert rows[..row + 1][..row] == rows[..row];
  }

  /** Where the children of a row fall among all the cells. */
  lemma NextCell(rows: seq<seq<Child>>, row: nat, j: nat)
    requires row < |rows| && j < |rows[row]|
    ensures var n := CellsBefore(rows, row, j);
      if rows[row][j].Cell? then
        && CellsBefore(rows, row, j + 1) == n + 1
        && n < |AllCells(rows)| && AllCells(rows)[n] == Placed(row, rows[row][j])
      else CellsBefore(rows, row, j + 1) == n
  {
    assert rows[row][..j + 1][..j] == rows[row][..j];
    RowsOfCells(rows, row, j + 1);
  }

  lemma StartsAtZero(rows: seq<seq<Child>>, row: nat, blocks: seq<Block>)
    requires row < |rows| && |blocks| == CellsBefore(rows, row, 0) <= |AllCells(rows)|
    requires IsLayout(AllCells(rows)[..|blocks|], |rows|, blocks)
    ensures Start(blocks, row) == 0
  {
    RowsOfCells(rows, row, 0);
    if blocks != [] {
      var n := |blocks| - 1;
      assert AllCells(rows)[n] == AllCells(rows[..row])[n];
      assert PutsAt(blocks[..n], AllCells(rows)[..n + 1][n], |rows|, blocks[n]);
    }
  }

  /** A table is laid out exactly when it has a cell and first-fit can place every cell; the grid
      shown is then that one layout. Otherwise the reason is the first cell's fault. */
  method Layout(rows: seq<seq<Child>>) returns (r: Outcome<seq<seq<string>>>, ghost blocks: seq<Block>)
    ensures r.Ok? <==> AllCells(rows) != [] && HasLayout(rows)
    ensures r.Ok? ==> IsLayout(AllCells(rows), |rows|, blocks)
    ensures r.Ok? ==> exists width: nat :: width > 0 && Shows(r.value, |rows|, width, blocks)
    ensures r == Refused(NoRows) <==> rows == []
    ensures r == Refused(NoCells) <==> rows != [] && AllCells(rows) == []
    ensures r.Refused? && AllCells(rows) != [] ==> Stuck(rows, blocks, r.reason)
  {
    blocks := [];
    if rows == [] {
      return Refused(NoRows), blocks;
    }
    hide Span, Shows, Stuck, Covers, IsLayout;
    var fault, grid, width;
    fault, grid, width, blocks := PlaceRows(rows);
    if fault.Some? {
      StuckMeansNoLayout(rows, blocks, fault.value);
      return Refused(fault.value), blocks;
    }
    if width == 0 {
      return Refused(NoCells), blocks;
    }
    r := Ok(Render(grid, |rows|, width));
    assert AllCells(rows)[..|blocks|] == AllCells(rows);
    RenderShows(grid, |rows|, width, AllCells(rows), blocks);
  }

  method PlaceRows(rows: seq<seq<Child>>)
      returns (fault: Option<Refusal>, grid: map<(nat, nat), string>, width: nat, ghost blocks: seq<Block>)
    ensures fault.Some? ==> Stuck(rows, blocks, fault.value)
    ensures fault.None? ==> |blocks| == |AllCells(rows)| && Progress(rows, grid, width, blocks)
  {
    grid, width, blocks, fault := map[], 0, [], None;
    for row := 0 to |rows|
      invariant |blocks| == |AllCells(rows[..row])| && Progress(rows, grid, width, blocks)
    {
      RowEnds(rows, row);
      fault, grid, width, blocks := PlaceRow(rows, row, grid, width, blocks);
      if fault.Some? {
        return;
      }
    }
    fault := None;
    assert rows[..|rows|] == rows;
  }

  function Render(grid: map<(nat, nat), string>, height: nat, width: nat): seq<seq<string>> {
    seq(height, r => seq(width, c => if (r, c) in grid then grid[(r, c)] else ""))
  }

  lemma RenderShows(grid: map<(nat, nat), string>, height: nat, width: nat, cells: seq<Placed>, blocks: seq<Block>)
    requires Holds(grid, width, blocks) && Positive(blocks) && WidthReached(width, blocks) && width > 0
    requires IsLayout(cells, height, blocks)
    ensures Shows(Render(grid, height, width), height, width, blocks)
  {
    var output := Render(grid, height, width);
    forall b | b in blocks ensures b.row + b.down <= height && b.column + b.across <= width {
      var i :| 0 <= i < |blocks| && blocks[i] == b;
      assert PutsAt(blocks[..i], cells[i], height, blocks[i]);
    }
    forall r: nat, c: nat | r < height && c < width ensures output[r][c] == Entry(blocks, r, c) {
      if (r, c) !in grid {
        UncoveredIsBlank(blocks, r, c);
      }
    }
  }

  ghost predicate WidthReached(width: nat, blocks: seq<Block>) {
    if blocks == [] then width == 0
    else width > 0 && exists b :: b in blocks && b.column + b.across == width
  }

  lemma WidthSnoc(wider: nat, blocks: seq<Block>, b: Block)
    requires b.across > 0 && b.column + b.across <= wider
    requires b.column + b.across == wider || WidthReached(wider, blocks)
    ensures WidthReached(wider, blocks + [b])
  {
    if b.column + b.across == wider {
      assert b in blocks + [b];
    } else {
      var x :| x in blocks && x.column + x.across == wider;
      assert x in blocks + [b];
    }
  }
}
