/**
 * The column-major reading order of a PDF page
 * (backend/src/job_apply_pro/documents/extractors.py): nothing is lost, and each row can
 * be read back from it.
 */
module PdfLayout {
  import opened Prelude
  import opened PdfColumns
  import opened PdfGeometry

  const MAX_BLOCK_CHARACTERS := 20000

  /** A segment with the index of its row. */
  datatype Placed = Placed(row: nat, start: nat, text: string)

  datatype Block = Block(row: nat, column: Option<nat>, text: string)

  // ---------------------------------------------------------------- reading orders

  function Place(row: Row, r: nat): (ps: seq<Placed>)
    ensures |ps| == |row| && forall i :: 0 <= i < |row| ==> ps[i] == Placed(r, row[i].start, row[i].text)
  {
    if row == [] then [] else Place(row[..|row| - 1], r) + [Placed(r, row[|row| - 1].start, row[|row| - 1].text)]
  }

  /** The segments of rows `from` up to `to`, row by row and from left to right. */
  function RowMajor(rows: seq<Row>, from: nat, to: nat): seq<Placed>
    requires from <= to <= |rows|
  {
    if to == from then [] else RowMajor(rows, from, to - 1) + Place(rows[to - 1], to - 1)
  }

  /** The segments nearest to column `c`, in the order in which they come. */
  function InColumn(ps: seq<Placed>, starts: seq<nat>, c: nat): seq<Placed>
    requires starts != []
  {
    if ps == [] then []
    else if Nearest(starts, ps[|ps| - 1].start) == c then InColumn(ps[..|ps| - 1], starts, c) + [ps[|ps| - 1]]
    else InColumn(ps[..|ps| - 1], starts, c)
  }

  /** The segments of the first `n` columns, column by column. */
  function ColumnMajor(ps: seq<Placed>, starts: seq<nat>, n: nat): seq<Placed>
    requires starts != []
  {
    if n == 0 then [] else ColumnMajor(ps, starts, n - 1) + InColumn(ps, starts, n - 1)
  }

  /** The segments of row `r`, in the order in which they come. */
  function OfRow(ps: seq<Placed>, r: nat): seq<Placed> {
    if ps == [] then []
    else if ps[|ps| - 1].row == r then OfRow(ps[..|ps| - 1], r) + [ps[|ps| - 1]]
    else OfRow(ps[..|ps| - 1], r)
  }

  lemma InColumnSnoc(ps: seq<Placed>, p: Placed, starts: seq<nat>, c: nat)
    requires starts != []
    ensures InColumn(ps + [p], starts, c) == InColumn(ps, starts, c) + if Nearest(starts, p.start) == c then [p] else []
  {
    assert (ps + [p])[..|ps|] == ps;
  }

  lemma OfRowSnoc(ps: seq<Placed>, p: Placed, r: nat)
    ensures OfRow(ps + [p], r) == OfRow(ps, r) + if p.row == r then [p] else []
  {
    assert (ps + [p])[..|ps|] == ps;
  }

  // ---------------------------------------------------------------- conservation

  lemma {:induction false} ColumnMajorGains(ps: seq<Placed>, p: Placed, starts: seq<nat>, n: nat)
    requires starts != []
    ensures multiset(ColumnMajor(ps + [p], starts, n)) ==
            multiset(ColumnMajor(ps, starts, n)) + if Nearest(starts, p.start) < n then multiset{p} else multiset{}
  {
    hide InColumn, Nearest;
    if n > 0 {
      ColumnMajorGains(ps, p, starts, n - 1);
      InColumnSnoc(ps, p, starts, n - 1);
    }
  }

  /** Reading column by column keeps every segment, and each as often as it was there. */
  lemma {:induction false} ColumnMajorConserves(ps: seq<Placed>, starts: seq<nat>)
    requires starts != []
    ensures multiset(ColumnMajor(ps, starts, |starts|)) == multiset(ps)
  {
    if ps == [] {
      NoColumns(starts, |starts|);
    } else {
      var before, p := ps[..|ps| - 1], ps[|ps| - 1];
      assert ps == before + [p];
      ColumnMajorConserves(before, starts);
      ColumnMajorGains(before, p, starts, |starts|);
    }
  }

  lemma {:induction false} NoColumns(starts: seq<nat>, n: nat)
    requires starts != []
    ensures ColumnMajor([], starts, n) == []
  {
    if n > 0 { NoColumns(starts, n - 1); }
  }

  // ---------------------------------------------------------------- order within a column

  ghost predicate Before(a: Placed, b: Placed) { a.row < b.row || (a.row == b.row && a.start < b.start) }

  ghost predicate InOrder(ps: seq<Placed>) { forall i, j :: 0 <= i < j < |ps| ==> Before(ps[i], ps[j]) }

  ghost predicate LeftToRight(row: Row) { forall i, j :: 0 <= i < j < |row| ==> row[i].start < row[j].start }

  lemma {:induction false} RowMajorInOrder(rows: seq<Row>, from: nat, to: nat)
    requires from <= to <= |rows| && forall r :: from <= r < to ==> LeftToRight(rows[r])
    ensures InOrder(RowMajor(rows, from, to))
    ensures forall i :: 0 <= i < |RowMajor(rows, from, to)| ==> from <= RowMajor(rows, from, to)[i].row < to
  {
    if from < to {
      hide Place, Before, LeftToRight;
      RowMajorInOrder(rows, from, to - 1);
      PlacedInOrder(rows[to - 1], to - 1);
      LaterRowFollows(RowMajor(rows, from, to - 1), Place(rows[to - 1], to - 1), to - 1);
    }
  }

  lemma PlacedInOrder(row: Row, r: nat)
    requires LeftToRight(row)
    ensures InOrder(Place(row, r)) && forall i :: 0 <= i < |Place(row, r)| ==> Place(row, r)[i].row == r
  {
  }

  lemma LaterRowFollows(ps: seq<Placed>, qs: seq<Placed>, r: nat)
    requires InOrder(ps) && InOrder(qs)
    requires forall i :: 0 <= i < |ps| ==> ps[i].row < r
    requires forall i :: 0 <= i < |qs| ==> qs[i].row == r
    ensures InOrder(ps + qs)
  {
    forall i, j | 0 <= i < j < |ps + qs| ensures Before((ps + qs)[i], (ps + qs)[j]) {
      if j < |ps| { assert Before(ps[i], ps[j]); }
      else if |ps| <= i { assert Before(qs[i - |ps|], qs[j - |ps|]); }
    }
  }

  /** What is in a column came earlier or later in the page as it does in the column. */
  lemma {:induction false} InColumnInOrder(ps: seq<Placed>, starts: seq<nat>, c: nat)
    requires starts != [] && InOrder(ps)
    ensures InOrder(InColumn(ps, starts, c))
    ensures forall p :: p in InColumn(ps, starts, c) <==> p in ps && Nearest(starts, p.start) == c
  {
    hide Nearest;
    if ps != [] {
      var before, last := ps[..|ps| - 1], ps[|ps| - 1];
      assert ps == before + [last];
      InColumnInOrder(before, starts, c);
      forall p | p in before ensures Before(p, last) {
        var i :| 0 <= i < |before| && before[i] == p;
        assert Before(ps[i], ps[|ps| - 1]);
      }
      var column := InColumn(before, starts, c);
      forall i | 0 <= i < |column| ensures Before(column[i], last) { assert column[i] in before; }
    }
  }

  /** Column `c` holds exactly the segments nearest to it, in the order of the page. */
  ghost predicate HoldsItsSegments(ps: seq<Placed>, starts: seq<nat>, c: nat)
    requires starts != []
  {
    && InOrder(InColumn(ps, starts, c))
    && forall p :: p in InColumn(ps, starts, c) <==> p in ps && Nearest(starts, p.start) == c
  }

  /** Each column of rows that run from left to right holds its segments in the order of the page. */
  lemma ColumnsHoldTheirs(rows: seq<Row>, first: nat, starts: seq<nat>, c: nat)
    requires starts != [] && first <= |rows| && forall r :: first <= r < |rows| ==> LeftToRight(rows[r])
    ensures HoldsItsSegments(RowMajor(rows, first, |rows|), starts, c)
  {
    hide RowMajor, InColumn, InOrder, Nearest;
    RowMajorInOrder(rows, first, |rows|);
    InColumnInOrder(RowMajor(rows, first, |rows|), starts, c);
  }

  // ---------------------------------------------------------------- reading back by row

  lemma {:induction false} OfRowConcat(ps: seq<Placed>, qs: seq<Placed>, r: nat)
    ensures OfRow(ps + qs, r) == OfRow(ps, r) + OfRow(qs, r)
    decreases |qs|
  {
    if qs == [] { assert ps + qs == ps; }
    else {
      var before, q := qs[..|qs| - 1], qs[|qs| - 1];
      assert ps + qs == (ps + before) + [q];
      OfRowConcat(ps, before, r);
      OfRowSnoc(ps + before, q, r);
    }
  }

  lemma {:induction false} RowThenColumn(ps: seq<Placed>, starts: seq<nat>, c: nat, r: nat)
    requires starts != []
    ensures OfRow(InColumn(ps, starts, c), r) == InColumn(OfRow(ps, r), starts, c)
  {
    hide Nearest;
    if ps != [] {
      var before, p := ps[..|ps| - 1], ps[|ps| - 1];
      assert ps == before + [p];
      RowThenColumn(before, starts, c, r);
      InColumnSnoc(before, p, starts, c);
      OfRowSnoc(before, p, r);
      if Nearest(starts, p.start) == c { OfRowSnoc(InColumn(before, starts, c), p, r); }
      if p.row == r { InColumnSnoc(OfRow(before, r), p, starts, c); }
    }
  }

  lemma {:induction false} RowThenColumns(ps: seq<Placed>, starts: seq<nat>, n: nat, r: nat)
    requires starts != []
    ensures OfRow(ColumnMajor(ps, starts, n), r) == ColumnMajor(OfRow(ps, r), starts, n)
  {
    hide InColumn, OfRow;
    NothingOfRow(r);
    if n > 0 {
      RowThenColumns(ps, starts, n - 1, r);
      RowThenColumn(ps, starts, n - 1, r);
      OfRowConcat(ColumnMajor(ps, starts, n - 1), InColumn(ps, starts, n - 1), r);
    }
  }

  lemma NothingOfRow(r: nat)
    ensures OfRow([], r) == []
  {
  }

  lemma {:induction false} RowOfRowMajor(rows: seq<Row>, from: nat, to: nat, r: nat)
    requires from <= to <= |rows|
    ensures OfRow(RowMajor(rows, from, to), r) == if from <= r < to then Place(rows[r], r) else []
  {
    hide OfRow, Place;
    NothingOfRow(r);
    if from < to {
      RowOfRowMajor(rows, from, to - 1, r);
      OfRowConcat(RowMajor(rows, from, to - 1), Place(rows[to - 1], to - 1), r);
      RowOfOneRow(rows[to - 1], to - 1, r);
    }
  }

  lemma {:induction false} RowOfOneRow(row: Row, at: nat, r: nat)
    ensures OfRow(Place(row, at), r) == if at == r then Place(row, at) else []
  {
    if row != [] {
      RowOfOneRow(row[..|row| - 1], at, r);
      OfRowSnoc(Place(row[..|row| - 1], at), Placed(at, row[|row| - 1].start, row[|row| - 1].text), r);
    }
  }

  /** No column of `ps` lies to the right of column `c`. */
  ghost predicate Within(ps: seq<Placed>, starts: seq<nat>, c: nat)
    requires starts != []
  {
    forall i :: 0 <= i < |ps| ==> Nearest(starts, ps[i].start) <= c
  }

  lemma {:induction false} EmptyColumn(ps: seq<Placed>, starts: seq<nat>, c: nat, m: nat)
    requires starts != [] && Within(ps, starts, c) && c < m
    ensures InColumn(ps, starts, m) == []
  {
    if ps != [] { EmptyColumn(ps[..|ps| - 1], starts, c, m); }
  }

  /** A segment in or right of the last column so far comes last in column order too. */
  lemma {:induction false} LastStaysLast(ps: seq<Placed>, p: Placed, starts: seq<nat>, n: nat)
    requires starts != [] && Within(ps, starts, Nearest(starts, p.start))
    ensures ColumnMajor(ps + [p], starts, n) ==
            ColumnMajor(ps, starts, n) + if Nearest(starts, p.start) < n then [p] else []
  {
    hide InColumn, Nearest;
    if n > 0 {
      LastStaysLast(ps, p, starts, n - 1);
      InColumnSnoc(ps, p, starts, n - 1);
      if Nearest(starts, p.start) < n - 1 { EmptyColumn(ps, starts, Nearest(starts, p.start), n - 1); }
    }
  }

  /** Segments of one row never cross columns: within a row, column order is left-to-right order. */
  lemma {:induction false} RowStaysInOrder(row: Row, r: nat, starts: seq<nat>)
    requires starts != [] && Apart(starts) && LeftToRight(row)
    ensures ColumnMajor(Place(row, r), starts, |starts|) == Place(row, r)
  {
    hide Nearest;
    if row == [] { NoColumns(starts, |starts|); }
    else {
      var before, last := row[..|row| - 1], row[|row| - 1];
      RowStaysInOrder(before, r, starts);
      var ps, p := Place(before, r), Placed(r, last.start, last.text);
      forall i | 0 <= i < |ps| ensures Nearest(starts, ps[i].start) <= Nearest(starts, p.start) {
        assert row[i].start < last.start;
        NearestIsMonotone(starts, ps[i].start, p.start);
      }
      NearestInRange(starts, p.start);
      LastStaysLast(ps, p, starts, |starts|);
    }
  }

  lemma NearestInRange(starts: seq<nat>, x: nat)
    requires starts != []
    ensures Nearest(starts, x) < |starts|
  {
  }

  /** From the column-major order alone every row can be read back whole and in its own order. */
  lemma RowsReadBack(rows: seq<Row>, from: nat, starts: seq<nat>, r: nat)
    requires from <= r < |rows| && starts != [] && Apart(starts) && LeftToRight(rows[r])
    ensures OfRow(ColumnMajor(RowMajor(rows, from, |rows|), starts, |starts|), r) == Place(rows[r], r)
  {
    RowThenColumns(RowMajor(rows, from, |rows|), starts, |starts|, r);
    RowOfRowMajor(rows, from, |rows|, r);
    RowStaysInOrder(rows[r], r, starts);
  }

  // ---------------------------------------------------------------- the page

  function Joined(row: Row): string {
    if row == [] then []
    else if |row| == 1 then row[0].text
    else Joined(row[..|row| - 1]) + " " + row[|row| - 1].text
  }

  function Cut(text: string): (cut: string)
    ensures cut <= text && (|text| <= 20000 ==> cut == text) && (|text| > 20000 ==> |cut| == 20000)
  {
    if |text| <= MAX_BLOCK_CHARACTERS then text else text[..MAX_BLOCK_CHARACTERS]
  }

  /** One block for each row with text. */
  function Lines(rows: seq<Row>): seq<Block> {
    if rows == [] then []
    else
      var before, last := Lines(rows[..|rows| - 1]), rows[|rows| - 1];
      if last == [] then before else before + [Block(|rows| - 1, None, Cut(Joined(last)))]
  }

  lemma JoinedSnoc(row: Row, last: Segment)
    ensures row == [] ==> Joined(row + [last]) == last.text
    ensures row != [] ==> Joined(row + [last]) == Joined(row) + (" " + last.text)
  {
    assert (row + [last])[..|row|] == row;
  }

  lemma Regroup(a: string, b: string, c: string)
    ensures a + " " + b + c == a + " " + (b + c)
  {
  }

  /** The texts of a line come in order with one space between any two. */
  lemma {:induction false} JoinedSplits(a: Row, b: Row)
    requires a != [] && b != []
    ensures Joined(a + b) == Joined(a) + " " + Joined(b)
    ensures |a| == 1 ==> Joined(a) == a[0].text
    decreases |b|
  {
    assert |a| == 1 ==> Joined(a) == a[0].text;
    hide Joined;
    var fewer: Row, last: Segment := b[..|b| - 1], b[|b| - 1];
    assert b == fewer + [last] && a + b == (a + fewer) + [last];
    JoinedSnoc(a + fewer, last);
    JoinedSnoc(fewer, last);
    if fewer == [] {
      assert a + fewer == a;
    } else {
      JoinedSplits(a, fewer);
      Regroup(Joined(a), Joined(fewer), " " + last.text);
    }
  }

  /** Each row with text has its line: after those of the rows above it, joined, and cut at 20,000 characters. */
  lemma {:induction false} LinesExactly(rows: seq<Row>, r: nat)
    requires r < |rows| && rows[r] != []
    ensures
      var lines, k := Lines(rows), |Lines(rows[..r])|;
      && k < |lines| && lines[k].row == r && lines[k].column == None
      && lines[k].text <= Joined(rows[r])
      && |lines[k].text| == if |Joined(rows[r])| <= 20000 then |Joined(rows[r])| else 20000
  {
    hide Joined;
    var n := |rows| - 1;
    if r < n {
      assert rows[..n][..r] == rows[..r];
      LinesExactly(rows[..n], r);
    }
  }

  /** No other line: every one is the line of a row with text. */
  lemma {:induction false} LinesAreRows(rows: seq<Row>, k: nat)
    requires k < |Lines(rows)|
    ensures
      var r := Lines(rows)[k].row;
      r < |rows| && rows[r] != [] && k == |Lines(rows[..r])|
  {
    hide Joined, Cut;
    var n := |rows| - 1;
    if k < |Lines(rows[..n])| {
      LinesAreRows(rows[..n], k);
      assert rows[..n][..Lines(rows)[k].row] == rows[..Lines(rows)[k].row];
    }
  }

  function Blocks(ps: seq<Placed>, column: nat): seq<Block> {
    if ps == [] then [] else Blocks(ps[..|ps| - 1], column) + [Block(ps[|ps| - 1].row, Some(column), Cut(ps[|ps| - 1].text))]
  }

  function ColumnBlocks(ps: seq<Placed>, starts: seq<nat>, n: nat): seq<Block>
    requires starts != []
  {
    if n == 0 then [] else ColumnBlocks(ps, starts, n - 1) + Blocks(InColumn(ps, starts, n - 1), n - 1)
  }

  ghost predicate IsFirstMultiRow(rows: seq<Row>, first: nat) {
    first < |rows| && |rows[first]| >= 2 && forall r :: 0 <= r < first ==> |rows[r]| < 2
  }

  lemma {:induction false} MultiRowExists(rows: seq<Row>)
    requires MultiRows(rows) != []
    ensures exists r :: 0 <= r < |rows| && |rows[r]| >= 2
  {
    if |rows[|rows| - 1]| < 2 {
      MultiRowExists(rows[..|rows| - 1]);
      var r :| 0 <= r < |rows| - 1 && |rows[..|rows| - 1][r]| >= 2;
      assert |rows[r]| >= 2;
    }
  }

  /** The rows in front of the first one with several segments, then its column-major rest. */
  method ReadByColumns(rows: seq<Row>, starts: seq<nat>) returns (blocks: seq<Block>, ghost first: nat)
    requires starts != [] && MultiRows(rows) != []
    ensures IsFirstMultiRow(rows, first)
    ensures blocks == Lines(rows[..first]) + ColumnBlocks(RowMajor(rows, first, |rows|), starts, |starts|)
  {
    hide Lines, ColumnBlocks, Blocks, RowMajor;
    MultiRowExists(rows);
    var multi := 0;
    while |rows[multi]| < 2
      invariant multi < |rows| && forall r :: 0 <= r < multi ==> |rows[r]| < 2
      decreases |rows| - multi
    {
      multi := multi + 1;
    }
    first := multi;
    blocks := ReadLines(rows[..multi]);
    var columns := FillColumns(rows, multi, starts);
    var c := 0;
    ColumnBlocksStart(RowMajor(rows, first, |rows|), starts);
    assert blocks + [] == blocks;
    while c < |starts|
      invariant 0 <= c <= |starts|
      invariant blocks == Lines(rows[..first]) + ColumnBlocks(RowMajor(rows, first, |rows|), starts, c)
    {
      var entries := BlocksOf(columns[c], c);
      ColumnBlocksStep(RowMajor(rows, first, |rows|), starts, c);
      blocks := blocks + entries;
      c := c + 1;
    }
  }

  lemma ColumnBlocksStart(ps: seq<Placed>, starts: seq<nat>)
    requires starts != []
    ensures ColumnBlocks(ps, starts, 0) == []
  {
  }

  lemma ColumnBlocksStep(ps: seq<Placed>, starts: seq<nat>, c: nat)
    requires starts != []
    ensures ColumnBlocks(ps, starts, c + 1) == ColumnBlocks(ps, starts, c) + Blocks(InColumn(ps, starts, c), c)
  {
  }

  method BlocksOf(ps: seq<Placed>, column: nat) returns (blocks: seq<Block>)
    ensures blocks == Blocks(ps, column)
  {
    blocks := [];
    var i := 0;
    while i < |ps|
      invariant 0 <= i <= |ps| && blocks == Blocks(ps[..i], column)
    {
      assert ps[..i + 1][..i] == ps[..i];
      blocks := blocks + [Block(ps[i].row, Some(column), Cut(ps[i].text))];
      i := i + 1;
    }
    assert ps[..i] == ps;
  }

  method JoinTexts(row: Row) returns (text: string)
    ensures text == Joined(row)
  {
    if row == [] { return []; }
    text := row[0].text;
    var i := 1;
    assert row[..1] == [row[0]];
    while i < |row|
      invariant 1 <= i <= |row| && text == Joined(row[..i])
    {
      assert row[..i + 1][..i] == row[..i];
      text := text + " " + row[i].text;
      i := i + 1;
    }
    assert row[..i] == row;
  }

  lemma NoLines(rows: seq<Row>)
    requires rows == []
    ensures Lines(rows) == []
  {
  }

  lemma LinesSnoc(rows: seq<Row>, i: nat)
    requires i < |rows|
    ensures
      Lines(rows[..i + 1]) ==
      Lines(rows[..i]) + if rows[i] == [] then [] else [Block(i, None, Cut(Joined(rows[i])))]
  {
    hide Joined, Cut;
    assert rows[..i + 1][..i] == rows[..i];
  }

  method ReadLines(rows: seq<Row>) returns (blocks: seq<Block>)
    ensures blocks == Lines(rows)
  {
    hide Lines, Joined, Cut;
    blocks := [];
    var i := 0;
    NoLines(rows[..0]);
    while i < |rows|
      invariant 0 <= i <= |rows| && blocks == Lines(rows[..i])
    {
      LinesSnoc(rows, i);
      if rows[i] != [] {
        var text := JoinTexts(rows[i]);
        blocks := blocks + [Block(i, None, Cut(text))];
      }
      i := i + 1;
    }
    assert rows[..i] == rows;
  }

  method NearestColumn(starts: seq<nat>, x: nat) returns (c: nat)
    requires starts != []
    ensures c == Nearest(starts, x)
  {
    c := 0;
    var i := 1;
    assert starts[..1] == [starts[0]];
    while i < |starts|
      invariant 1 <= i <= |starts| && c < i && c == Nearest(starts[..i], x)
    {
      assert starts[..i + 1][..i] == starts[..i];
      if Distance(starts[i], x) < Distance(starts[c], x) { c := i; }
      i := i + 1;
    }
    assert starts[..i] == starts;
  }

  ghost predicate Filled(columns: seq<seq<Placed>>, ps: seq<Placed>, starts: seq<nat>)
    requires starts != []
  {
    |columns| == |starts| && forall c: nat :: c < |starts| ==> columns[c] == InColumn(ps, starts, c)
  }

  lemma FilledGrows(columns: seq<seq<Placed>>, ps: seq<Placed>, starts: seq<nat>, p: Placed, c: nat)
    requires starts != [] && Filled(columns, ps, starts) && c == Nearest(starts, p.start)
    ensures c < |starts| && Filled(columns[c := columns[c] + [p]], ps + [p], starts)
  {
    hide InColumn, Nearest;
    NearestInRange(starts, p.start);
    forall i: nat | i < |starts| ensures columns[c := columns[c] + [p]][i] == InColumn(ps + [p], starts, i) {
      InColumnSnoc(ps, p, starts, i);
    }
  }

  method FillColumns(rows: seq<Row>, first: nat, starts: seq<nat>) returns (columns: seq<seq<Placed>>)
    requires starts != [] && first <= |rows|
    ensures Filled(columns, RowMajor(rows, first, |rows|), starts)
  {
    hide Filled, Nearest;
    columns := seq(|starts|, _ => []);
    assert Filled(columns, [], starts) by { NothingFilled(starts); }
    var r := first;
    while r < |rows|
      invariant first <= r <= |rows| && Filled(columns, RowMajor(rows, first, r), starts)
    {
      var row := rows[r];
      ghost var above := RowMajor(rows, first, r);
      var i := 0;
      assert above + Place(row[..0], r) == above;
      while i < |row|
        invariant 0 <= i <= |row| && Filled(columns, above + Place(row[..i], r), starts)
      {
        var p := Placed(r, row[i].start, row[i].text);
        var column := NearestColumn(starts, row[i].start);
        assert row[..i + 1][..i] == row[..i];
        assert above + Place(row[..i + 1], r) == (above + Place(row[..i], r)) + [p];
        FilledGrows(columns, above + Place(row[..i], r), starts, p, column);
        FilledSize(columns, above + Place(row[..i], r), starts);
        columns := columns[column := columns[column] + [p]];
        i := i + 1;
      }
      assert row[..i] == row;
      r := r + 1;
    }
  }

  lemma NothingFilled(starts: seq<nat>)
    requires starts != []
    ensures Filled(seq(|starts|, _ => []), [], starts)
  {
  }

  lemma FilledSize(columns: seq<seq<Placed>>, ps: seq<Placed>, starts: seq<nat>)
    requires starts != [] && Filled(columns, ps, starts)
    ensures |columns| == |starts|
  {
  }

  // ---------------------------------------------------------------- finding the columns

  method CollectStarts(rows: seq<Row>) returns (multi: nat, starts: seq<nat>)
    ensures multi == |MultiRows(rows)| && starts == AllStarts(MultiRows(rows))
  {
    multi, starts := 0, [];
    var i := 0;
    while i < |rows|
      invariant 0 <= i <= |rows| && multi == |MultiRows(rows[..i])| && starts == AllStarts(MultiRows(rows[..i]))
    {
      assert rows[..i + 1][..i] == rows[..i];
      var row := rows[i];
      if |row| >= 2 {
        ghost var before := MultiRows(rows[..i]);
        assert (before + [row])[..|before|] == before;
        var own := StartsOf(row);
        multi, starts := multi + 1, starts + own;
      }
      i := i + 1;
    }
    assert rows[..i] == rows;
  }

  /** The clustering loop: a start joins the last cluster or opens the next. */
  method Cluster(starts: seq<nat>) returns (clusters: seq<seq<nat>>)
    ensures clusters == Clusters(starts)
  {
    clusters := [];
    var i := 0;
    while i < |starts|
      invariant 0 <= i <= |starts| && clusters == Clusters(starts[..i])
    {
      assert starts[..i + 1][..i] == starts[..i];
      var last := |clusters| - 1;
      if clusters == [] || starts[i] - Mean(clusters[last]) >= 4 {
        clusters := clusters + [[starts[i]]];
      } else {
        clusters := clusters[last := clusters[last] + [starts[i]]];
      }
      i := i + 1;
    }
    assert starts[..i] == starts;
  }

  lemma SeparatedStep(centers: seq<nat>, i: nat)
    requires 0 < i < |centers|
    ensures
      var before := Separated(centers[..i]);
      && before != []
      && Separated(centers[..i + 1]) ==
         if centers[i] - before[|before| - 1] >= PDF_MIN_COLUMN_SEPARATION then before + [centers[i]] else before
  {
    assert centers[..i + 1][..i] == centers[..i];
  }

  lemma SeparatedOne(centers: seq<nat>)
    requires |centers| == 1
    ensures Separated(centers) == centers
  {
    assert Separated(centers[..0]) == [];
  }

  method Separate(centers: seq<nat>) returns (separated: seq<nat>)
    ensures separated == Separated(centers)
  {
    if centers == [] { return []; }
    hide Separated, Apart;
    SeparatedOne(centers[..1]);
    separated := [centers[0]];
    var i := 1;
    while i < |centers|
      invariant 1 <= i <= |centers| && separated == Separated(centers[..i]) && separated != []
    {
      SeparatedStep(centers, i);
      if centers[i] - separated[|separated| - 1] >= PDF_MIN_COLUMN_SEPARATION { separated := separated + [centers[i]]; }
      i := i + 1;
    }
    assert centers[..i] == centers;
  }

  method FindColumnStarts(rows: seq<Row>) returns (starts: seq<nat>)
    ensures starts == ColumnStarts(rows)
  {
    hide MultiRows, AllStarts, Sort, Clusters, Centers, Separated;
    var multi, all := CollectStarts(rows);
    if multi < PDF_MIN_MULTI_COLUMN_ROWS { return []; }
    var clusters := Cluster(Sort(all));
    var separated := Separate(Centers(clusters));
    return if |separated| >= 2 then separated else [];
  }

  /**
   * The blocks of a page: by columns where there are columns, line by line where there are
   * none, and one empty line for a page without text.  A page set at some positions is read by
   * exactly these columns, and one on which fewer than two rows have several segments by none.
   */
  method ExtractLayoutPage(rows: seq<Row>) returns (blocks: seq<Block>, byColumns: bool, ghost first: nat)
    ensures byColumns <==> ColumnStarts(rows) != []
    ensures rows == [] ==> blocks == [Block(0, None, "")]
    ensures rows != [] && !byColumns ==> blocks == Lines(rows)
    ensures byColumns ==>
      && IsFirstMultiRow(rows, first)
      && blocks == Lines(rows[..first]) + ColumnBlocks(RowMajor(rows, first, |rows|), ColumnStarts(rows), |ColumnStarts(rows)|)
    ensures forall positions :: SetAt(rows, positions) ==>
      && byColumns && |positions| >= 2
      && blocks == Lines(rows[..first]) + ColumnBlocks(RowMajor(rows, first, |rows|), positions, |positions|)
    ensures byColumns ==> HasMultiRows(rows)
  {
    forall positions | SetAt(rows, positions) ensures ColumnStarts(rows) == positions && |positions| >= 2 {
      ColumnsOfPage(rows, positions);
    }
    if ColumnStarts(rows) != [] { ColumnsNeedRows(rows); }
    hide SetAt, HasMultiRows, ColumnStarts;
    hide Lines, ColumnBlocks, RowMajor, Centers, Separated, Sort, Clusters, AllStarts;
    first := 0;
    if rows == [] { return [Block(0, None, "")], false, first; }
    var starts := FindColumnStarts(rows);
    if starts == [] {
      blocks := ReadLines(rows);
      return blocks, false, first;
    }
    blocks, first := ReadByColumns(rows, starts);
    return blocks, true, first;
  }

  // ---------------------------------------------------------------- what a page by columns is worth

  /**
   * A page read by columns keeps every segment from the first multi-segment row on, and each
   * of its rows can be read back from the column-major order.
   */
  lemma PageConserves(rows: seq<Row>, first: nat, r: nat)
    requires ColumnStarts(rows) != [] && IsFirstMultiRow(rows, first)
    requires first <= r < |rows| && LeftToRight(rows[r])
    ensures
      var starts, ps := ColumnStarts(rows), RowMajor(rows, first, |rows|);
      && multiset(ColumnMajor(ps, starts, |starts|)) == multiset(ps)
      && OfRow(ColumnMajor(ps, starts, |starts|), r) == Place(rows[r], r)
      && ((forall k :: first <= k < |rows| ==> LeftToRight(rows[k])) ==> forall c: nat :: HoldsItsSegments(ps, starts, c))
  {
    hide ColumnStarts, RowMajor, ColumnMajor, OfRow, Place, HoldsItsSegments, LeftToRight;
    if forall k :: first <= k < |rows| ==> LeftToRight(rows[k]) {
      forall c: nat ensures HoldsItsSegments(RowMajor(rows, first, |rows|), ColumnStarts(rows), c) {
        ColumnsHoldTheirs(rows, first, ColumnStarts(rows), c);
      }
    }
    ColumnMajorConserves(RowMajor(rows, first, |rows|), ColumnStarts(rows));
    ColumnStartsApart(rows);
    RowsReadBack(rows, first, ColumnStarts(rows), r);
  }

  function AsBlock(p: Placed, starts: seq<nat>): Block
    requires starts != []
  {
    Block(p.row, Some(Nearest(starts, p.start)), Cut(p.text))
  }

  lemma {:induction false} ColumnBlocksAre(ps: seq<Placed>, starts: seq<nat>, c: nat)
    requires starts != []
    ensures |Blocks(InColumn(ps, starts, c), c)| == |InColumn(ps, starts, c)|
    ensures forall i :: 0 <= i < |InColumn(ps, starts, c)| ==>
      Blocks(InColumn(ps, starts, c), c)[i] == AsBlock(InColumn(ps, starts, c)[i], starts)
  {
    hide Nearest;
    if ps != [] {
      var before, last := ps[..|ps| - 1], ps[|ps| - 1];
      ColumnBlocksAre(before, starts, c);
      assert (InColumn(before, starts, c) + [last])[..|InColumn(before, starts, c)|] == InColumn(before, starts, c);
    }
  }

  /** The blocks of a page by columns are its segments in column-major order, each with its column. */
  lemma {:induction false} BlocksAreColumnMajor(ps: seq<Placed>, starts: seq<nat>, n: nat)
    requires starts != []
    ensures |ColumnBlocks(ps, starts, n)| == |ColumnMajor(ps, starts, n)|
    ensures forall i :: 0 <= i < |ColumnMajor(ps, starts, n)| ==>
      ColumnBlocks(ps, starts, n)[i] == AsBlock(ColumnMajor(ps, starts, n)[i], starts)
  {
    hide Nearest, InColumn, Blocks, AsBlock;
    if n > 0 {
      BlocksAreColumnMajor(ps, starts, n - 1);
      ColumnBlocksAre(ps, starts, n - 1);
    }
  }

  lemma ColumnStartsApart(rows: seq<Row>)
    ensures Apart(ColumnStarts(rows))
  {
  }
}
