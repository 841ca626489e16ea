/** What a laid-out table promises: every cell owns its own block, blocks never share a square, and
    reading the grid row by row gives the cells' texts in document order. */
module JatsTableLaws {
  import opened Seqs
  import opened JatsTable

  // ---------- span attributes ----------

  function Zeros(k: nat): string { seq(k, _ => '0') }

  lemma NumberSnoc(front: string, c: char)
    requires Digits(front) && IsDigit(c)
    ensures Digits(front + [c]) && Number(front + [c]) == Number(front) * 10 + (c as int - '0' as int)
  {
    assert (front + [c])[..|front|] == front;
  }

  lemma DigitIs(d: nat)
    requires d < 10
    ensures IsDigit(DIGITS[d]) && DIGITS[d] as int - '0' as int == d
  {}

  lemma {:induction false} DecimalReads(n: nat, k: nat)
    ensures Digits(Zeros(k) + Decimal(n)) && Number(Zeros(k) + Decimal(n)) == n
  {
    hide Number, Digits;
    DigitIs(n % 10);
    if n < 10 {
      ZerosRead(k);
      NumberSnoc(Zeros(k), DIGITS[n]);
    } else {
      DecimalReads(n / 10, k);
      NumberSnoc(Zeros(k) + Decimal(n / 10), DIGITS[n % 10]);
      assert Zeros(k) + Decimal(n) == (Zeros(k) + Decimal(n / 10)) + [DIGITS[n % 10]];
    }
  }

  lemma {:induction false} ZerosRead(k: nat)
    ensures Digits(Zeros(k)) && Number(Zeros(k)) == 0
  {
    if k > 0 {
      ZerosRead(k - 1);
      NumberSnoc(Zeros(k - 1), '0');
      assert Zeros(k) == Zeros(k - 1) + ['0'];
    }
  }

  /** One more digit after a numeral that is not zero. */
  lemma NumeralSnoc(front: string, k: nat, n: nat, d: nat)
    requires front == Zeros(k) + Decimal(n) && n > 0 && d < 10
    ensures front + [DIGITS[d]] == Zeros(k) + Decimal(n * 10 + d)
  {
    var more := n * 10 + d;
    assert more / 10 == n && more % 10 == d;
    assert Zeros(k) + (Decimal(n) + [DIGITS[d]]) == front + [DIGITS[d]];
  }

  /** One more digit after nothing but zeros. */
  lemma ZerosSnoc(front: string, k: nat, d: nat)
    requires front == Zeros(k) + Decimal(0) && d < 10
    ensures front + [DIGITS[d]] == Zeros(k + 1) + Decimal(d)
  {
    assert Decimal(0) == ['0'] && Zeros(k + 1) == Zeros(k) + ['0'];
  }

  lemma DigitAt(c: char)
    requires IsDigit(c)
    ensures var d := c as int - '0' as int; 0 <= d < 10 && DIGITS[d] == c
  {
    DigitIs(c as int - '0' as int);
  }

  /** One more digit after any numeral. */
  lemma NextDigit(front: string, k: nat, n: nat, c: char) returns (more: nat)
    requires front == Zeros(k) + Decimal(n) && IsDigit(c)
    ensures front + [c] == Zeros(more) + Decimal(n * 10 + (c as int - '0' as int))
  {
    hide Zeros, Decimal;
    DigitAt(c);
    if n == 0 {
      more := k + 1;
      ZerosSnoc(front, k, c as int - '0' as int);
    } else {
      more := k;
      NumeralSnoc(front, k, n, c as int - '0' as int);
    }
  }

  lemma FrontAndLast(s: string)
    requires s != "" && Digits(s)
    ensures var front, c := s[..|s| - 1], s[|s| - 1];
      Digits(front) && IsDigit(c) && s == front + [c] && Number(s) == Number(front) * 10 + (c as int - '0' as int)
  {
    NumberSnoc(s[..|s| - 1], s[|s| - 1]);
  }

  lemma {:induction false} ReadsAsDecimal(s: string) returns (k: nat)
    requires s != "" && Digits(s)
    ensures s == Zeros(k) + Decimal(Number(s))
    decreases |s|
  {
    hide *;
    FrontAndLast(s);
    if |s| == 1 {
      k := 0;
      OneDigit(s);
    } else {
      var front := s[..|s| - 1];
      k := ReadsAsDecimal(front);
      k := NextDigit(front, k, Number(front), s[|s| - 1]);
    }
  }

  lemma OneDigit(s: string)
    requires |s| == 1 && Digits(s)
    ensures s == Zeros(0) + Decimal(Number(s))
  {
    DigitAt(s[0]);
    NumberSnoc("", s[0]);
    assert s == "" + [s[0]];
  }

  /** A span attribute is read as `n` if and only if it is the decimal numeral of `n`, with any leading
      zeros, and `n` is from 1 to 1000; anything else is refused. An absent one is 1. */
  lemma SpanExactlyWhen(s: string, n: nat)
    ensures Span(Some(s)) == Some(n) <==> 1 <= n <= 1000 && exists k :: s == Zeros(k) + Decimal(n)
    ensures Span(None) == Some(1)
  {
    if Span(Some(s)) == Some(n) {
      var k := ReadsAsDecimal(s);
    }
    if exists k :: s == Zeros(k) + Decimal(n) {
      var k :| s == Zeros(k) + Decimal(n);
      DecimalReads(n, k);
    }
  }

  /** Blocks are pairwise disjoint. */
  lemma BlocksAreDisjoint(cells: seq<Placed>, height: nat, blocks: seq<Block>, i: nat, j: nat, r: nat, c: nat)
    requires IsLayout(cells, height, blocks) && i < j < |blocks|
    ensures !(Covers(blocks[i], r, c) && Covers(blocks[j], r, c))
  {
    assert PutsAt(blocks[..j], cells[j], height, blocks[j]);
    assert blocks[..j][i] == blocks[i];
  }

  lemma EntryOutside(blocks: seq<Block>, b: Block, i: nat, r: nat, c: nat)
    requires i < |blocks| && blocks[i] == b && Positive(blocks) && !Covers(b, r, c)
    ensures !(b.row == r && b.column == c)
  {
    assert b in blocks;
  }

  /** In pairwise disjoint blocks, a covered square shows what its one block puts there. */
  lemma {:induction false} EntryOfBlock(blocks: seq<Block>, i: nat, r: nat, c: nat)
    requires i < |blocks| && Positive(blocks) && Covers(blocks[i], r, c)
    requires forall j :: 0 <= j < |blocks| && j != i ==> !Covers(blocks[j], r, c)
    ensures Entry(blocks, r, c) == Mark(blocks[i], r, c)
  {
    var n := |blocks| - 1;
    var front := blocks[..n];
    assert forall b :: b in front ==> b in blocks;
    if i < n {
      EntryOutside(blocks, blocks[n], n, r, c);
      EntryOfBlock(front, i, r, c);
    } else {
      assert !Covered(front, r, c) by {
        forall j | 0 <= j < n ensures !Covers(front[j], r, c) {
          assert front[j] == blocks[j];
        }
      }
      UncoveredIsBlank(front, r, c);
    }
  }

  /** Every cell owns its block: each square of the block is inside the rectangle, belongs to no other
      cell, and is blank but for the first, which holds the cell's text. */
  lemma CellOwnsItsBlock(rows: seq<seq<Child>>, blocks: seq<Block>, output: seq<seq<string>>, width: nat,
                         i: nat, r: nat, c: nat)
    requires IsLayout(AllCells(rows), |rows|, blocks) && Shows(output, |rows|, width, blocks)
    requires i < |blocks| && Covers(blocks[i], r, c)
    ensures AllCells(rows)[i].cell.Cell? && r < |output| && c < |output[r]|
    ensures output[r][c] ==
      if r == blocks[i].row && c == blocks[i].column then AllCells(rows)[i].cell.text else ""
    ensures forall j :: 0 <= j < |blocks| && j != i ==> !Covers(blocks[j], r, c)
  {
    hide Entry, AllCells, Span;
    var cells := AllCells(rows);
    assert PutsAt(blocks[..i], cells[i], |rows|, blocks[i]) && blocks[i] in blocks;
    forall j | 0 <= j < |blocks| && j != i ensures !Covers(blocks[j], r, c) {
      BlocksAreDisjoint(cells, |rows|, blocks, if i < j then i else j, if i < j then j else i, r, c);
    }
    forall j | 0 <= j < |blocks| ensures blocks[j].down > 0 && blocks[j].across > 0 {
      BlocksAreSized(cells, |rows|, blocks, j);
    }
    EntryOfBlock(blocks, i, r, c);
  }

  lemma BlocksAreSized(cells: seq<Placed>, height: nat, blocks: seq<Block>, j: nat)
    requires IsLayout(cells, height, blocks) && j < |blocks|
    ensures blocks[j].down > 0 && blocks[j].across > 0
  {
    assert PutsAt(blocks[..j], cells[j], height, blocks[j]);
  }

  /** Squares no cell covers are blank. */
  lemma UnownedIsBlank(rows: seq<seq<Child>>, blocks: seq<Block>, output: seq<seq<string>>, width: nat,
                       r: nat, c: nat)
    requires IsLayout(AllCells(rows), |rows|, blocks) && Shows(output, |rows|, width, blocks)
    requires r < |rows| && c < width && !Covered(blocks, r, c)
    ensures output[r][c] == ""
  {
    hide Entry, AllCells;
    forall j | 0 <= j < |blocks| ensures blocks[j].down > 0 && blocks[j].across > 0 {
      BlocksAreSized(AllCells(rows), |rows|, blocks, j);
    }
    UncoveredIsBlank(blocks, r, c);
  }

  /** `a` comes before `b` in reading order. */
  predicate Before(a: Block, b: Block) {
    a.row < b.row || (a.row == b.row && a.column + a.across <= b.column)
  }

  ghost predicate InOrder(blocks: seq<Block>) {
    forall i, j :: 0 <= i < j < |blocks| ==> Before(blocks[i], blocks[j])
  }

  lemma NextIsAfter(cells: seq<Placed>, height: nat, blocks: seq<Block>, n: nat)
    requires IsLayout(cells, height, blocks) && 0 < n < |blocks| && cells[n - 1].row <= cells[n].row
    ensures Before(blocks[n - 1], blocks[n])
  {
    assert PutsAt(blocks[..n], cells[n], height, blocks[n]);
    assert PutsAt(blocks[..n - 1], cells[n - 1], height, blocks[n - 1]);
    assert blocks[..n][n - 1] == blocks[n - 1];
  }

  lemma {:induction false} LayoutInOrder(cells: seq<Placed>, height: nat, blocks: seq<Block>, i: nat, j: nat)
    requires IsLayout(cells, height, blocks) && i < j < |blocks|
    requires forall i, j :: 0 <= i < j < |cells| ==> cells[i].row <= cells[j].row
    ensures Before(blocks[i], blocks[j])
    decreases j
  {
    NextIsAfter(cells, height, blocks, j);
    if i < j - 1 {
      LayoutInOrder(cells, height, blocks, i, j - 1);
    }
  }

  // ---------- reading order ----------

  predicate IsText(t: string) { t != "" }

  function NonEmpty(texts: seq<string>): seq<string> {
    Filter(IsText, texts)
  }

  function Texts(blocks: seq<Block>): seq<string> {
    Apply((b: Block) => b.text, blocks)
  }

  function RowOf(blocks: seq<Block>, r: nat, width: nat): seq<string> {
    seq(width, c requires 0 <= c < width => Entry(blocks, r, c))
  }

  function GridOf(blocks: seq<Block>, height: nat, width: nat): seq<seq<string>> {
    seq(height, r requires 0 <= r < height => RowOf(blocks, r, width))
  }

  lemma {:induction false} BlanksVanish(texts: seq<string>)
    requires forall t :: t in texts ==> t == ""
    ensures NonEmpty(texts) == []
  {
    if texts != [] {
      assert texts[0] in texts && forall t :: t in texts[1..] ==> t in texts;
      BlanksVanish(texts[1..]);
    }
  }

  lemma {:induction false} BlankRowsVanish(rows: seq<seq<string>>)
    requires forall row :: row in rows ==> AllBlank(row)
    ensures NonEmpty(Flatten(rows)) == []
  {
    forall t | t in Flatten(rows) ensures t == "" {
      InFlatten(rows, t);
    }
    BlanksVanish(Flatten(rows));
  }

  /** Nothing has been written at or after the place of a block that comes later than all. */
  lemma {:induction false} BlankAhead(blocks: seq<Block>, b: Block, r: nat, c: nat)
    requires forall x :: x in blocks ==> Before(x, b) && x.across > 0
    requires r > b.row || (r == b.row && c >= b.column)
    ensures Entry(blocks, r, c) == ""
  {
    if blocks != [] {
      assert blocks[|blocks| - 1] in blocks;
      BlankAhead(blocks[..|blocks| - 1], b, r, c);
    }
  }

  predicate AllBlank(texts: seq<string>) {
    forall i :: 0 <= i < |texts| ==> texts[i] == ""
  }

  lemma RowReads(row: seq<string>, c: nat)
    requires c < |row| && AllBlank(row[c + 1..])
    ensures NonEmpty(row) == NonEmpty(row[..c]) + NonEmpty([row[c]])
  {
    assert row == row[..c] + ([row[c]] + row[c + 1..]);
    FilterConcat(IsText, row[..c], [row[c]] + row[c + 1..]);
    FilterConcat(IsText, [row[c]], row[c + 1..]);
    BlanksVanish(row[c + 1..]);
  }

  lemma GridReads(above: seq<seq<string>>, row: seq<string>, below: seq<seq<string>>)
    requires forall x :: x in below ==> AllBlank(x)
    ensures NonEmpty(Flatten(above + ([row] + below))) == NonEmpty(Flatten(above)) + NonEmpty(row)
  {
    FlattenConcat(above, [row] + below);
    assert ([row] + below)[1..] == below;
    FilterConcat(IsText, Flatten(above), row + Flatten(below));
    FilterConcat(IsText, row, Flatten(below));
    BlankRowsVanish(below);
  }

  lemma RowSnoc(blocks: seq<Block>, b: Block, r: nat, width: nat)
    requires b.column < width
    ensures RowOf(blocks + [b], r, width) ==
            if r == b.row then RowOf(blocks, r, width)[b.column := b.text] else RowOf(blocks, r, width)
  {
    assert (blocks + [b])[..|blocks|] == blocks;
  }

  lemma GridSnoc(blocks: seq<Block>, b: Block, height: nat, width: nat)
    requires b.row < height && b.column < width
    ensures var g := GridOf(blocks, height, width);
      GridOf(blocks + [b], height, width) == g[..b.row] + ([g[b.row][b.column := b.text]] + g[b.row + 1..])
  {
    forall r | 0 <= r < height ensures RowOf(blocks + [b], r, width) ==
        if r == b.row then RowOf(blocks, r, width)[b.column := b.text] else RowOf(blocks, r, width) {
      RowSnoc(blocks, b, r, width);
    }
  }

  /** Writing the next block in order appends its text to what the grid reads. */
  lemma WriteNext(blocks: seq<Block>, b: Block, height: nat, width: nat)
    requires b.row < height && b.column < width
    requires forall x :: x in blocks ==> Before(x, b) && x.across > 0
    ensures NonEmpty(Flatten(GridOf(blocks + [b], height, width))) ==
            NonEmpty(Flatten(GridOf(blocks, height, width))) + NonEmpty([b.text])
  {
    var g := GridOf(blocks, height, width);
    var above, row, below := g[..b.row], g[b.row], g[b.row + 1..];
    GridSnoc(blocks, b, height, width);
    BlankAfter(blocks, b, height, width);
    hide Entry, GridOf, Flatten, NonEmpty, Before;
    assert g == above + ([row] + below);
    var written := row[b.column := b.text];
    GridReads(above, row, below);
    GridReads(above, written, below);
    RowReads(row, b.column);
    RowReads(written, b.column);
    assert row[..b.column] == written[..b.column];
    BlanksVanish([""]);
    assert [row[b.column]] == [""];
  }

  /** Everything after the place of a block that comes later than all is blank. */
  lemma BlankAfter(blocks: seq<Block>, b: Block, height: nat, width: nat)
    requires b.row < height && b.column < width
    requires forall x :: x in blocks ==> Before(x, b) && x.across > 0
    ensures var g := GridOf(blocks, height, width);
      && (forall x :: x in g[b.row + 1..] ==> AllBlank(x))
      && |g[b.row]| == width && forall c :: b.column <= c < width ==> g[b.row][c] == ""
  {
    hide Entry, Before;
    var g := GridOf(blocks, height, width);
    forall r, c | b.row < r < height && 0 <= c < width ensures g[r][c] == "" {
      BlankAhead(blocks, b, r, c);
    }
    forall c | b.column <= c < width ensures g[b.row][c] == "" {
      BlankAhead(blocks, b, b.row, c);
    }
  }

  lemma {:induction false} GridReadsTexts(blocks: seq<Block>, height: nat, width: nat)
    requires InOrder(blocks)
    requires forall b :: b in blocks ==> b.row < height && b.column < width && b.across > 0
    ensures NonEmpty(Flatten(GridOf(blocks, height, width))) == NonEmpty(Texts(blocks))
  {
    if blocks == [] {
      BlankRowsVanish(GridOf(blocks, height, width));
    } else {
      var n := |blocks| - 1;
      GridReadsTexts(blocks[..n], height, width);
      assert blocks == blocks[..n] + [blocks[n]];
      assert blocks[n] in blocks;
      WriteNext(blocks[..n], blocks[n], height, width);
      assert Texts(blocks) == Texts(blocks[..n]) + [blocks[n].text];
      FilterConcat(IsText, Texts(blocks[..n]), [blocks[n].text]);
    }
  }

  /** No text is lost, invented or reordered: the non-empty entries of the rectangle, read row by
      row, are the non-empty cell texts in document order. */
  lemma ReadingOrder(rows: seq<seq<Child>>, blocks: seq<Block>, output: seq<seq<string>>, width: nat)
    requires IsLayout(AllCells(rows), |rows|, blocks) && Shows(output, |rows|, width, blocks)
    ensures NonEmpty(Flatten(output)) == NonEmpty(Texts(blocks))
    ensures forall i :: 0 <= i < |blocks| ==>
      AllCells(rows)[i].cell.Cell? && Texts(blocks)[i] == AllCells(rows)[i].cell.text
  {
    hide Span, AllCells, Flatten, NonEmpty;
    var cells := AllCells(rows);
    RowsBelow(rows);
    forall i, j | 0 <= i < j < |blocks| ensures Before(blocks[i], blocks[j]) {
      LayoutInOrder(cells, |rows|, blocks, i, j);
    }
    forall i | 0 <= i < |blocks| ensures PutsAt(blocks[..i], cells[i], |rows|, blocks[i]) {}
    assert forall b :: b in blocks ==> b.across > 0 && b.down > 0;
    ShowsTheGrid(blocks, output, |rows|, width);
    GridReadsTexts(blocks, |rows|, width);
  }

  lemma ShowsTheGrid(blocks: seq<Block>, output: seq<seq<string>>, height: nat, width: nat)
    requires Shows(output, height, width, blocks)
    ensures output == GridOf(blocks, height, width)
  {
    hide Entry;
    forall r | 0 <= r < height ensures output[r] == RowOf(blocks, r, width) {
      forall c | 0 <= c < width ensures output[r][c] == Entry(blocks, r, c) {}
    }
  }
}
