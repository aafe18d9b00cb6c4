/**
 * Where the columns of a laid-out PDF page start, and to which of them a segment belongs
 * (backend/src/job_apply_pro/documents/extractors.py).
 */
module PdfColumns {

  const PDF_MIN_COLUMN_SEPARATION: nat := 12
  const PDF_MIN_MULTI_COLUMN_ROWS: nat := 2

  /** A piece of text and the character position it starts at. */
  datatype Segment = Segment(start: nat, text: string)

  type Row = seq<Segment>

  // ---------------------------------------------------------------- rounded means

  function Sum(xs: seq<nat>): nat {
    if xs == [] then 0 else Sum(xs[..|xs| - 1]) + xs[|xs| - 1]
  }

  /** `sum / n` to the nearest integer, and to the even one when two are equally near. */
  function Round(sum: nat, n: nat): (r: nat)
    requires n > 0
    ensures sum / n <= r <= sum / n + 1
    ensures sum % n == 0 ==> r == sum / n
  {
    var q, rest := sum / n, sum % n;
    if 2 * rest < n || (2 * rest == n && q % 2 == 0) then q else q + 1
  }

  function Mean(xs: seq<nat>): nat
    requires xs != []
  {
    Round(Sum(xs), |xs|)
  }

  lemma {:induction false} SumBounds(xs: seq<nat>, lo: nat, hi: nat)
    requires forall i :: 0 <= i < |xs| ==> lo <= xs[i] <= hi
    ensures lo * |xs| <= Sum(xs) <= hi * |xs|
  {
    if xs != [] {
      var n := |xs| - 1;
      SumBounds(xs[..n], lo, hi);
      TimesNext(lo, n);
      TimesNext(hi, n);
    }
  }

  lemma TimesNext(a: nat, n: nat)
    ensures a * (n + 1) == a * n + a
  {
  }

  lemma TimesGrows(a: nat, b: nat, n: nat)
    requires a <= b
    ensures a * n <= b * n
  {
  }

  lemma QuotientBounds(sum: nat, n: nat, lo: nat, hi: nat)
    requires n > 0 && lo * n <= sum <= hi * n
    ensures lo <= sum / n <= hi && (sum / n == hi ==> sum % n == 0)
  {
    var q, rest := sum / n, sum % n;
    assert sum == q * n + rest && rest < n;
    if q < lo { TimesGrows(q + 1, lo, n); }
  }

  lemma RoundBounds(sum: nat, n: nat, lo: nat, hi: nat)
    requires n > 0 && lo * n <= sum <= hi * n
    ensures lo <= Round(sum, n) <= hi
  {
    hide Round;
    QuotientBounds(sum, n, lo, hi);
  }

  /** A rounded mean lies between the values it is the mean of. */
  lemma MeanBounds(xs: seq<nat>, lo: nat, hi: nat)
    requires xs != [] && forall i :: 0 <= i < |xs| ==> lo <= xs[i] <= hi
    ensures lo <= Mean(xs) <= hi
  {
    SumBounds(xs, lo, hi);
    RoundBounds(Sum(xs), |xs|, lo, hi);
  }

  // ---------------------------------------------------------------- clusters

  predicate Sorted(xs: seq<nat>) { forall i, j :: 0 <= i < j < |xs| ==> xs[i] <= xs[j] }

  function Insert(x: nat, xs: seq<nat>): seq<nat> {
    if xs == [] then [x]
    else if x <= xs[0] then [x] + xs
    else [xs[0]] + Insert(x, xs[1..])
  }

  lemma {:induction false} InsertKeeps(x: nat, xs: seq<nat>)
    ensures multiset(Insert(x, xs)) == multiset{x} + multiset(xs)
  {
    if xs != [] && x > xs[0] {
      assert xs == [xs[0]] + xs[1..];
      InsertKeeps(x, xs[1..]);
    }
  }

  lemma InsertHas(x: nat, xs: seq<nat>, y: nat)
    requires y in Insert(x, xs)
    ensures y == x || y in xs
  {
    InsertKeeps(x, xs);
    assert y in multiset(Insert(x, xs));
  }

  lemma {:induction false} InsertSorts(x: nat, xs: seq<nat>)
    requires Sorted(xs)
    ensures Sorted(Insert(x, xs))
  {
    if xs != [] && x > xs[0] {
      var rest := Insert(x, xs[1..]);
      InsertSorts(x, xs[1..]);
      forall i | 0 <= i < |rest| ensures xs[0] <= rest[i] { InsertHas(x, xs[1..], rest[i]); }
    }
  }

  function Sort(xs: seq<nat>): seq<nat> {
    if xs == [] then [] else Insert(xs[0], Sort(xs[1..]))
  }

  lemma {:induction false} SortSorts(xs: seq<nat>)
    ensures Sorted(Sort(xs)) && multiset(Sort(xs)) == multiset(xs)
  {
    if xs != [] {
      assert xs == [xs[0]] + xs[1..];
      SortSorts(xs[1..]);
      InsertSorts(xs[0], Sort(xs[1..]));
      InsertKeeps(xs[0], Sort(xs[1..]));
    }
  }

  /** Runs of starts, each less than 4 behind the rounded mean of those before it in its run. */
  function Clusters(xs: seq<nat>): (cs: seq<seq<nat>>)
    ensures forall i :: 0 <= i < |cs| ==> cs[i] != []
    ensures xs != [] ==> cs != []
  {
    if xs == [] then []
    else
      var before, x := Clusters(xs[..|xs| - 1]), xs[|xs| - 1];
      if before == [] || x - Mean(before[|before| - 1]) >= 4 then before + [[x]]
      else before[|before| - 1 := before[|before| - 1] + [x]]
  }

  function Flatten(cs: seq<seq<nat>>): seq<nat> {
    if cs == [] then [] else Flatten(cs[..|cs| - 1]) + cs[|cs| - 1]
  }

  /** Clustering only cuts: no start is lost, doubled or moved. */
  lemma {:induction false} ClustersConserve(xs: seq<nat>)
    ensures Flatten(Clusters(xs)) == xs
  {
    if xs != [] {
      var n := |xs| - 1;
      var before, after := Clusters(xs[..n]), Clusters(xs);
      ClustersConserve(xs[..n]);
      assert xs == xs[..n] + [xs[n]];
      if |after| == |before| {
        assert after[..|after| - 1] == before[..|before| - 1];
      } else {
        assert after[..|after| - 1] == before;
      }
    }
  }

  /** The rounded means of the clusters with at least two starts. */
  function Centers(cs: seq<seq<nat>>): seq<nat>
    requires forall i :: 0 <= i < |cs| ==> cs[i] != []
  {
    if cs == [] then []
    else
      var before, last := Centers(cs[..|cs| - 1]), cs[|cs| - 1];
      if |last| >= 2 then before + [Mean(last)] else before
  }

  /** The centers that keep their distance from the one kept before them. */
  function Separated(centers: seq<nat>): (r: seq<nat>)
    ensures centers != [] ==> r != []
    ensures Apart(r)
    ensures forall x :: x in r ==> x in centers
  {
    if centers == [] then []
    else
      var before, center := Separated(centers[..|centers| - 1]), centers[|centers| - 1];
      if before == [] || center - before[|before| - 1] >= PDF_MIN_COLUMN_SEPARATION then before + [center] else before
  }

  predicate Apart(starts: seq<nat>) {
    forall i, j :: 0 <= i < j < |starts| ==> starts[j] - starts[i] >= PDF_MIN_COLUMN_SEPARATION
  }

  /** Every center is the rounded mean of at least two of the starts, and so lies among them. */
  lemma {:induction false} CentersLieAmong(cs: seq<seq<nat>>, lo: nat, hi: nat)
    requires forall i :: 0 <= i < |cs| ==> cs[i] != []
    requires forall x :: x in Flatten(cs) ==> lo <= x <= hi
    ensures forall x :: x in Centers(cs) ==> lo <= x <= hi
  {
    if cs != [] {
      var before, last := cs[..|cs| - 1], cs[|cs| - 1];
      forall x | x in Flatten(before) || x in last ensures lo <= x <= hi { assert x in Flatten(cs); }
      CentersLieAmong(before, lo, hi);
      assert forall i :: 0 <= i < |last| ==> last[i] in last;
      MeanBounds(last, lo, hi);
    }
  }

  function StartsOf(row: Row): seq<nat> {
    if row == [] then [] else StartsOf(row[..|row| - 1]) + [row[|row| - 1].start]
  }

  function MultiRows(rows: seq<Row>): seq<Row> {
    if rows == [] then []
    else if |rows[|rows| - 1]| >= 2 then MultiRows(rows[..|rows| - 1]) + [rows[|rows| - 1]]
    else MultiRows(rows[..|rows| - 1])
  }

  function AllStarts(rows: seq<Row>): seq<nat> {
    if rows == [] then [] else AllStarts(rows[..|rows| - 1]) + StartsOf(rows[|rows| - 1])
  }

  /** Where the columns of a page start; no columns unless there are at least two, on enough rows. */
  function ColumnStarts(rows: seq<Row>): (starts: seq<nat>)
  {
    var multi := MultiRows(rows);
    if |multi| < PDF_MIN_MULTI_COLUMN_ROWS then []
    else
      var separated := Separated(Centers(Clusters(Sort(AllStarts(multi)))));
      if |separated| >= 2 then separated else []
  }

  /** Columns come in twos or more, at least 12 apart, and each starts among the segments it was found from. */
  lemma ColumnsAreApart(rows: seq<Row>, lo: nat, hi: nat)
    requires forall x :: x in AllStarts(MultiRows(rows)) ==> lo <= x <= hi
    ensures |ColumnStarts(rows)| != 1 && Apart(ColumnStarts(rows))
    ensures forall x :: x in ColumnStarts(rows) ==> lo <= x <= hi
    ensures ColumnStarts(rows) != [] ==> |MultiRows(rows)| >= PDF_MIN_MULTI_COLUMN_ROWS
  {
    hide Sort, Clusters, Centers, AllStarts, MultiRows, Flatten;
    var all := AllStarts(MultiRows(rows));
    var sorted := Sort(all);
    SortSorts(all);
    forall x | x in sorted ensures lo <= x <= hi { assert x in multiset(sorted) && x in all; }
    ClustersConserve(sorted);
    CentersLieAmong(Clusters(sorted), lo, hi);
  }

  // ---------------------------------------------------------------- the nearest column

  function Distance(a: nat, b: nat): nat { if a <= b then b - a else a - b }

  /** The first column whose start is nearest to `x`. */
  function Nearest(starts: seq<nat>, x: nat): (c: nat)
    requires starts != []
    ensures c < |starts|
    ensures forall i :: 0 <= i < |starts| ==> Distance(starts[c], x) <= Distance(starts[i], x)
    ensures forall i :: 0 <= i < c ==> Distance(starts[c], x) < Distance(starts[i], x)
  {
    if |starts| == 1 then 0
    else
      var n := |starts| - 1;
      var before := Nearest(starts[..n], x);
      if Distance(starts[n], x) < Distance(starts[before], x) then n else before
  }

  /** Further right never means a column further left. */
  lemma NearestIsMonotone(starts: seq<nat>, x: nat, y: nat)
    requires starts != [] && Apart(starts) && x <= y
    ensures Nearest(starts, x) <= Nearest(starts, y)
  {
    var a, b := Nearest(starts, x), Nearest(starts, y);
  }
}
