/**
 * When a PDF page has columns, and which (backend/src/job_apply_pro/documents/extractors.py):
 * the page's geometry decides, stated without the functions that find the columns.
 */
module PdfGeometry {
  import opened PdfColumns

  // ---------------------------------------------------------------- rounding

  /** A rounded mean is a nearest integer to the mean, and the even one when two are equally near. */
  lemma MeanIsNearest(xs: seq<nat>)
    requires xs != []
    ensures 2 * Sum(xs) <= 2 * (Mean(xs) * |xs|) + |xs| && 2 * (Mean(xs) * |xs|) <= 2 * Sum(xs) + |xs|
    ensures 2 * Sum(xs) == 2 * (Mean(xs) * |xs|) + |xs| || 2 * (Mean(xs) * |xs|) == 2 * Sum(xs) + |xs| ==> Mean(xs) % 2 == 0
  {
    RoundIsNearest(Sum(xs), |xs|);
  }

  lemma RoundIsNearest(sum: nat, n: nat)
    requires n > 0
    ensures 2 * sum <= 2 * (Round(sum, n) * n) + n && 2 * (Round(sum, n) * n) <= 2 * sum + n
    ensures 2 * sum == 2 * (Round(sum, n) * n) + n || 2 * (Round(sum, n) * n) == 2 * sum + n ==> Round(sum, n) % 2 == 0
  {
    var q, rest := sum / n, sum % n;
    NextMultiple(sum, n, q, rest);
    assert Round(sum, n) == q ==> Round(sum, n) * n == q * n;
    assert Round(sum, n) == q + 1 ==> Round(sum, n) * n == (q + 1) * n;
  }

  lemma NextMultiple(sum: nat, n: nat, q: nat, rest: nat)
    requires n > 0 && q == sum / n && rest == sum % n
    ensures sum == q * n + rest && (q + 1) * n == q * n + n && rest < n
  {
  }

  // ---------------------------------------------------------------- the only grouping

  /** Each start of a group is less than 4 behind the rounded mean of those before it in the group. */
  ghost predicate Grows(group: seq<nat>) {
    group != [] && forall k :: 0 < k < |group| ==> group[k] - Mean(group[..k]) < 4
  }

  /** Such groups, each of which starts at least 4 behind the rounded mean of the one before it. */
  ghost predicate Grouped(groups: seq<seq<nat>>) {
    && (forall i :: 0 <= i < |groups| ==> Grows(groups[i]))
    && (forall i :: 0 < i < |groups| ==> groups[i][0] - Mean(groups[i - 1]) >= 4)
  }

  lemma GroupShrinks(group: seq<nat>)
    requires Grows(group) && |group| > 1
    ensures Grows(group[..|group| - 1])
  {
    var shorter := group[..|group| - 1];
    assert forall k :: 0 < k < |shorter| ==> shorter[..k] == group[..k];
  }

  lemma GroupGrows(group: seq<nat>, x: nat)
    requires Grows(group) && x - Mean(group) < 4
    ensures Grows(group + [x])
  {
    var longer := group + [x];
    assert longer[..|group|] == group;
    assert forall k :: 0 < k < |group| ==> longer[..k] == group[..k];
  }

  lemma {:induction false} ClustersAreGrouped(xs: seq<nat>)
    ensures Grouped(Clusters(xs))
  {
    hide Mean, Grows;
    if xs != [] {
      var before, x := Clusters(xs[..|xs| - 1]), xs[|xs| - 1];
      ClustersAreGrouped(xs[..|xs| - 1]);
      if before == [] || x - Mean(before[|before| - 1]) >= 4 {
        Alone(x);
      } else {
        GroupGrows(before[|before| - 1], x);
      }
    }
  }

  lemma Alone(x: nat)
    ensures Grows([x])
  {
  }

  lemma GrowsIsNotEmpty(group: seq<nat>)
    requires Grows(group)
    ensures group != []
  {
  }

  lemma GroupedShrinks(groups: seq<seq<nat>>, n: nat)
    requires Grouped(groups) && |groups| == n + 1
    ensures groups[n] != [] && Grouped(groups[..n])
    ensures |groups[n]| > 1 ==> Grouped(groups[n := groups[n][..|groups[n]| - 1]])
  {
    hide Mean;
    if |groups[n]| > 1 { GroupShrinks(groups[n]); }
  }

  lemma FlattenShrinks(groups: seq<seq<nat>>, n: nat)
    requires |groups| == n + 1 && groups[n] != []
    ensures
      var last, xs := groups[n], Flatten(groups);
      && xs != [] && xs[|xs| - 1] == last[|last| - 1]
      && xs[..|xs| - 1] == Flatten(groups[n := last[..|last| - 1]])
      && (|last| == 1 ==> xs[..|xs| - 1] == Flatten(groups[..n]))
  {
    var shorter: seq<seq<nat>> := groups[n := groups[n][..|groups[n]| - 1]];
    assert shorter[..n] == groups[..n];
  }

  lemma NextIsNear(groups: seq<seq<nat>>, n: nat)
    requires Grouped(groups) && |groups| == n + 1
    ensures |groups[n]| > 1 ==>
      groups[n][|groups[n]| - 1] - Mean(groups[n][..|groups[n]| - 1]) < 4
    ensures |groups[n]| == 1 && n > 0 ==> groups[n - 1] != [] && groups[n][0] - Mean(groups[n - 1]) >= 4
  {
    hide Mean;
    assert Grows(groups[n]);
    if n > 0 { assert Grows(groups[n - 1]); }
  }

  lemma ClustersStep(xs: seq<nat>, before: seq<seq<nat>>)
    requires xs != [] && before == Clusters(xs[..|xs| - 1])
    ensures before == [] ==> Clusters(xs) == [[xs[|xs| - 1]]]
    ensures before != [] ==> before[|before| - 1] != []
    ensures before != [] && xs[|xs| - 1] - Mean(before[|before| - 1]) >= 4 ==>
      Clusters(xs) == before + [[xs[|xs| - 1]]]
    ensures before != [] && xs[|xs| - 1] - Mean(before[|before| - 1]) < 4 ==>
      Clusters(xs) == before[|before| - 1 := before[|before| - 1] + [xs[|xs| - 1]]]
  {
    hide Mean;
  }

  lemma Rejoined(groups: seq<seq<nat>>, n: nat, x: nat)
    requires |groups| == n + 1 && groups[n] != [] && groups[n][|groups[n]| - 1] == x
    ensures |groups[n]| == 1 ==> groups == groups[..n] + [[x]]
    ensures
      var rest: seq<nat> := groups[n][..|groups[n]| - 1];
      var shorter: seq<seq<nat>> := groups[n := rest];
      groups == shorter[n := shorter[n] + [x]]
  {
    var rest: seq<nat> := groups[n][..|groups[n]| - 1];
    assert groups[n] == rest + [x];
  }

  lemma LastOpens(groups: seq<seq<nat>>, n: nat)
    requires Grouped(groups) && |groups| == n + 1 && |groups[n]| == 1
    requires Clusters(Flatten(groups[..n])) == groups[..n]
    ensures Clusters(Flatten(groups)) == groups
  {
    var xs := Flatten(groups);
    FlattenShrinks(groups, n);
    NextIsNear(groups, n);
    Rejoined(groups, n, xs[|xs| - 1]);
    hide Mean, Grouped, Flatten, Clusters;
    ClustersStep(xs, groups[..n]);
  }

  lemma LastJoins(groups: seq<seq<nat>>, n: nat, shorter: seq<seq<nat>>)
    requires Grouped(groups) && |groups| == n + 1 && |groups[n]| > 1
    requires shorter == groups[n := groups[n][..|groups[n]| - 1]] && Clusters(Flatten(shorter)) == shorter
    ensures Clusters(Flatten(groups)) == groups
  {
    var xs := Flatten(groups);
    FlattenShrinks(groups, n);
    NextIsNear(groups, n);
    Rejoined(groups, n, xs[|xs| - 1]);
    hide Mean, Grouped, Flatten, Clusters;
    ClustersStep(xs, shorter);
  }

  lemma {:induction false} GroupedAreClusters(groups: seq<seq<nat>>)
    requires Grouped(groups)
    ensures Clusters(Flatten(groups)) == groups
    decreases |Flatten(groups)|
  {
    if groups == [] {
      assert Flatten(groups) == [];
    } else {
      hide Grouped, Flatten, Clusters;
      var n := |groups| - 1;
      GroupedShrinks(groups, n);
      FlattenShrinks(groups, n);
      if |groups[n]| == 1 {
        GroupedAreClusters(groups[..n]);
        LastOpens(groups, n);
      } else {
        var shorter: seq<seq<nat>> := groups[n := groups[n][..|groups[n]| - 1]];
        GroupedAreClusters(shorter);
        LastJoins(groups, n, shorter);
      }
    }
  }

  /** The clusters of a run of starts are its one cut into such groups. */
  lemma ClustersExactly(xs: seq<nat>, groups: seq<seq<nat>>)
    ensures groups == Clusters(xs) <==> Grouped(groups) && Flatten(groups) == xs
  {
    hide Grouped, Clusters, Flatten;
    ClustersAreGrouped(xs);
    ClustersConserve(xs);
    if Grouped(groups) { GroupedAreClusters(groups); }
  }

  // ---------------------------------------------------------------- centers and their distance

  ghost predicate Increasing(xs: seq<nat>) { forall i, j :: 0 <= i < j < |xs| ==> xs[i] < xs[j] }

  /** The rounded means of the chosen groups. */
  ghost predicate AreMeans(groups: seq<seq<nat>>, chosen: seq<nat>, means: seq<nat>) {
    |means| == |chosen| && forall i :: 0 <= i < |chosen| ==> IsMean(groups, chosen[i], means[i])
  }

  ghost predicate IsMean(groups: seq<seq<nat>>, k: nat, mean: nat) {
    k < |groups| && groups[k] != [] && Mean(groups[k]) == mean
  }

  /** Groups of two and more give a center each, in order, and smaller ones none. */
  lemma {:induction false} CentersExactly(groups: seq<seq<nat>>, chosen: seq<nat>, means: seq<nat>)
    requires forall i :: 0 <= i < |groups| ==> groups[i] != []
    requires Increasing(chosen) && forall k: nat :: k in chosen <==> k < |groups| && |groups[k]| >= 2
    requires AreMeans(groups, chosen, means)
    ensures Centers(groups) == means
    decreases |groups|
  {
    if groups == [] {
      assert means != [] ==> IsMean(groups, chosen[0], means[0]);
    } else {
      var n := |groups| - 1;
      if |groups[n]| >= 2 {
        LastChosen(groups, chosen, means, n);
        hide Mean, Increasing, AreMeans;
        CentersExactly(groups[..n], chosen[..|chosen| - 1], means[..|means| - 1]);
      } else {
        LastNotChosen(groups, chosen, means, n);
        hide Mean, Increasing, AreMeans;
        CentersExactly(groups[..n], chosen, means);
      }
    }
  }

  lemma LastChosen(groups: seq<seq<nat>>, chosen: seq<nat>, means: seq<nat>, n: nat)
    requires |groups| == n + 1 && |groups[n]| >= 2
    requires Increasing(chosen) && forall k: nat :: k in chosen <==> k < |groups| && |groups[k]| >= 2
    requires AreMeans(groups, chosen, means)
    ensures
      var fewer := chosen[..|chosen| - 1];
      && means != [] && means == means[..|means| - 1] + [Mean(groups[n])]
      && Increasing(fewer) && (forall k: nat :: k in fewer <==> k < n && |groups[..n][k]| >= 2)
      && AreMeans(groups[..n], fewer, means[..|means| - 1])
  {
    hide Mean;
    assert n in chosen;
    AllButLast(chosen, n);
    var fewer := chosen[..|chosen| - 1];
    forall i | 0 <= i < |fewer| ensures IsMean(groups[..n], fewer[i], means[i]) {
      assert IsMean(groups, chosen[i], means[i]) && fewer[i] in fewer;
    }
    assert IsMean(groups, n, means[|means| - 1]);
  }

  lemma LastNotChosen(groups: seq<seq<nat>>, chosen: seq<nat>, means: seq<nat>, n: nat)
    requires |groups| == n + 1 && |groups[n]| < 2
    requires forall k: nat :: k in chosen <==> k < |groups| && |groups[k]| >= 2
    requires AreMeans(groups, chosen, means)
    ensures forall k: nat :: k in chosen <==> k < n && |groups[..n][k]| >= 2
    ensures AreMeans(groups[..n], chosen, means)
  {
    hide Mean;
    forall i | 0 <= i < |chosen| ensures IsMean(groups[..n], chosen[i], means[i]) {
      assert IsMean(groups, chosen[i], means[i]) && chosen[i] in chosen;
    }
  }

  /** The largest element of an increasing sequence is its last, and cutting it off removes nothing else. */
  lemma AllButLast(xs: seq<nat>, n: nat)
    requires Increasing(xs) && n in xs && forall k: nat :: k in xs ==> k <= n
    ensures xs != [] && xs[|xs| - 1] == n && Increasing(xs[..|xs| - 1])
    ensures forall k: nat :: k in xs[..|xs| - 1] <==> k in xs && k != n
  {
    var m := |xs| - 1;
    assert xs[m] in xs;
    assert xs == xs[..m] + [xs[m]];
    assert forall i :: 0 <= i < m ==> xs[..m][i] == xs[i];
  }

  lemma SeparatedGains(before: seq<nat>, x: nat)
    requires Separated(before) == before && (before != [] ==> before[|before| - 1] + 12 <= x)
    ensures Separated(before + [x]) == before + [x]
  {
    hide Apart;
    assert (before + [x])[..|before|] == before;
  }

  /** Centers that are 12 apart are all kept. */
  lemma {:induction false} SeparatedKeeps(centers: seq<nat>)
    requires forall i, j :: 0 <= i < j < |centers| ==> centers[i] + 12 <= centers[j]
    ensures Separated(centers) == centers
  {
    if centers != [] {
      hide Separated;
      var n := |centers| - 1;
      SeparatedKeeps(centers[..n]);
      assert n > 0 ==> centers[..n][n - 1] + 12 <= centers[n];
      SeparatedGains(centers[..n], centers[n]);
      assert centers == centers[..n] + [centers[n]];
    }
  }

  /** One of those kept is `x`, or lies less than 12 before it. */
  ghost predicate Covered(kept: seq<nat>, x: nat) {
    exists i :: 0 <= i < |kept| && kept[i] <= x < kept[i] + 12
  }

  /** A center is left out only when one that is kept lies less than 12 before it, and the first never is. */
  lemma {:induction false} SeparatedCovers(centers: seq<nat>)
    requires Sorted(centers)
    ensures forall i :: 0 <= i < |centers| ==> Covered(Separated(centers), centers[i])
    ensures centers != [] ==> Separated(centers)[0] == centers[0]
    ensures forall i, j :: 0 <= i < j < |Separated(centers)| ==> Separated(centers)[i] + 12 <= Separated(centers)[j]
  {
    hide Covered;
    if centers != [] {
      var n := |centers| - 1;
      var before, after := Separated(centers[..n]), Separated(centers);
      SeparatedCovers(centers[..n]);
      forall i | 0 <= i < |centers| ensures Covered(after, centers[i]) {
        if i < n {
          assert centers[..n][i] == centers[i];
          CoveredStays(before, after, centers[i]);
        } else {
          KeptLast(centers, after);
        }
      }
    }
  }

  lemma CoveredStays(before: seq<nat>, after: seq<nat>, x: nat)
    requires Covered(before, x) && before <= after
    ensures Covered(after, x)
  {
    var i :| 0 <= i < |before| && before[i] <= x < before[i] + 12;
    assert after[i] == before[i];
  }

  lemma KeptLast(centers: seq<nat>, after: seq<nat>)
    requires Sorted(centers) && centers != [] && after == Separated(centers)
    ensures Covered(after, centers[|centers| - 1])
  {
    var last := after[|after| - 1];
    assert last in after;
    assert after[|after| - 1] <= centers[|centers| - 1] < after[|after| - 1] + 12;
  }

  // ---------------------------------------------------------------- the starts of a page

  /** Segment `i` of row `r` starts at `p`, and the row has several segments. */
  ghost predicate StartsAt(rows: seq<Row>, r: nat, i: nat, p: nat) {
    r < |rows| && |rows[r]| >= 2 && i < |rows[r]| && rows[r][i].start == p
  }

  ghost predicate Taken(rows: seq<Row>, p: nat) { exists r: nat, i: nat :: StartsAt(rows, r, i, p) }

  ghost predicate TakenTwice(rows: seq<Row>, p: nat) {
    exists r: nat, i: nat, s: nat, j: nat :: (r, i) != (s, j) && StartsAt(rows, r, i, p) && StartsAt(rows, s, j, p)
  }

  function Starts(rows: seq<Row>): seq<nat> { AllStarts(MultiRows(rows)) }

  function OwnStarts(row: Row): seq<nat> { if |row| >= 2 then StartsOf(row) else [] }

  lemma StartsSnoc(rows: seq<Row>)
    requires rows != []
    ensures Starts(rows) == Starts(rows[..|rows| - 1]) + OwnStarts(rows[|rows| - 1])
  {
    var before, last := MultiRows(rows[..|rows| - 1]), rows[|rows| - 1];
    if |last| >= 2 { assert (before + [last])[..|before|] == before; }
  }

  lemma {:induction false} StartsOfAt(row: Row)
    ensures |StartsOf(row)| == |row| && forall i :: 0 <= i < |row| ==> StartsOf(row)[i] == row[i].start
  {
    if row != [] { StartsOfAt(row[..|row| - 1]); }
  }

  lemma {:induction false} TakenExactly(rows: seq<Row>, p: nat)
    ensures p in Starts(rows) <==> Taken(rows, p)
  {
    hide Starts, Taken, OwnStarts;
    if rows == [] {
      NoStarts(p);
    } else {
      StartsSnoc(rows);
      TakenExactly(rows[..|rows| - 1], p);
      TakenSplits(rows, p);
    }
  }

  lemma NoStarts(p: nat)
    ensures Starts([]) == [] && !Taken([], p) && !TakenTwice([], p)
  {
  }

  lemma TakenSplits(rows: seq<Row>, p: nat)
    requires rows != []
    ensures Taken(rows, p) <==> Taken(rows[..|rows| - 1], p) || p in OwnStarts(rows[|rows| - 1])
  {
    var n := |rows| - 1;
    var above, own := rows[..n], OwnStarts(rows[n]);
    StartsOfAt(rows[n]);
    if Taken(above, p) {
      var r: nat, i: nat :| StartsAt(above, r, i, p);
      assert StartsAt(rows, r, i, p);
    }
    if p in own {
      var i :| 0 <= i < |own| && own[i] == p;
      assert StartsAt(rows, n, i, p);
    }
    if Taken(rows, p) {
      var r: nat, i: nat :| StartsAt(rows, r, i, p);
      if r < n { assert StartsAt(above, r, i, p); } else { assert own[i] == p; }
    }
  }

  ghost predicate TwiceIn(s: seq<nat>, p: nat) { exists i, j :: 0 <= i < j < |s| && s[i] == p == s[j] }

  lemma {:induction false} TwiceInExactly(s: seq<nat>, p: nat)
    ensures multiset(s)[p] >= 2 <==> TwiceIn(s, p)
  {
    if s != [] {
      var n := |s| - 1;
      assert s == s[..n] + [s[n]];
      TwiceInExactly(s[..n], p);
      if TwiceIn(s[..n], p) {
        var i, j :| 0 <= i < j < n && s[..n][i] == p == s[..n][j];
        assert s[i] == p == s[j];
      } else if s[n] == p && p in s[..n] {
        var i :| 0 <= i < n && s[..n][i] == p;
        assert s[i] == p == s[n];
      }
      if TwiceIn(s, p) {
        var i, j :| 0 <= i < j < |s| && s[i] == p == s[j];
        assert s[..n][i] == p && (j < n ==> s[..n][j] == p);
      }
    }
  }

  lemma {:induction false} TakenTwiceExactly(rows: seq<Row>, p: nat)
    ensures multiset(Starts(rows))[p] >= 2 <==> TakenTwice(rows, p)
  {
    hide Starts, TakenTwice, Taken, TwiceIn;
    if rows == [] {
      NoStarts(p);
    } else {
      var n := |rows| - 1;
      var above: seq<nat>, own: seq<nat> := Starts(rows[..n]), OwnStarts(rows[n]);
      StartsSnoc(rows);
      TakenTwiceExactly(rows[..n], p);
      TwiceInExactly(own, p);
      TakenExactly(rows[..n], p);
      assert multiset(above + own) == multiset(above) + multiset(own);
      assert multiset(above + own)[p] == multiset(above)[p] + multiset(own)[p];
      assert p in above <==> multiset(above)[p] > 0;
      assert p in own <==> multiset(own)[p] > 0;
      TakenTwiceSplits(rows, p);
    }
  }

  lemma TakenTwiceSplits(rows: seq<Row>, p: nat)
    requires rows != []
    ensures
      var above, own := rows[..|rows| - 1], OwnStarts(rows[|rows| - 1]);
      TakenTwice(rows, p) <==> TakenTwice(above, p) || TwiceIn(own, p) || (Taken(above, p) && p in own)
  {
    var n := |rows| - 1;
    var above: seq<Row>, own: seq<nat> := rows[..n], OwnStarts(rows[n]);
    StartsSplit(rows, n, p);
    hide StartsAt, OwnStarts;
    if TakenTwice(rows, p) { TwiceBelow(rows, n, p); }
    if TakenTwice(above, p) {
      var r: nat, i: nat, s: nat, j: nat :|
        (r, i) != (s, j) && StartsAt(above, r, i, p) && StartsAt(above, s, j, p);
      assert StartsAt(rows, r, i, p) && StartsAt(rows, s, j, p);
    }
    if TwiceIn(own, p) {
      var i, j :| 0 <= i < j < |own| && own[i] == p == own[j];
      assert StartsAt(rows, n, i, p) && StartsAt(rows, n, j, p);
    }
    if Taken(above, p) && p in own {
      var r: nat, i: nat :| StartsAt(above, r, i, p);
      var j :| 0 <= j < |own| && own[j] == p;
      assert StartsAt(rows, r, i, p) && StartsAt(rows, n, j, p) && r != n;
    }
  }

  lemma StartsSplit(rows: seq<Row>, n: nat, p: nat)
    requires |rows| == n + 1
    ensures forall r: nat, i: nat :: StartsAt(rows[..n], r, i, p) <==> r < n && StartsAt(rows, r, i, p)
    ensures forall r: nat, i: nat :: StartsAt(rows, r, i, p) ==> r <= n
    ensures forall i: nat ::
      StartsAt(rows, n, i, p) <==> i < |OwnStarts(rows[n])| && OwnStarts(rows[n])[i] == p
  {
    StartsOfAt(rows[n]);
  }

  lemma TwiceBelow(rows: seq<Row>, n: nat, p: nat)
    requires |rows| == n + 1 && TakenTwice(rows, p)
    ensures
      var above, own := rows[..n], OwnStarts(rows[n]);
      TakenTwice(above, p) || TwiceIn(own, p) || (Taken(above, p) && p in own)
  {
    var above: seq<Row>, own: seq<nat> := rows[..n], OwnStarts(rows[n]);
    StartsSplit(rows, n, p);
    hide StartsAt, OwnStarts;
    var r: nat, i: nat, s: nat, j: nat :|
      (r, i) != (s, j) && StartsAt(rows, r, i, p) && StartsAt(rows, s, j, p);
    if r < n && s < n {
      assert StartsAt(above, r, i, p) && StartsAt(above, s, j, p);
    } else if r == n && s == n {
      assert own[i] == p == own[j];
    } else if r < n {
      assert StartsAt(above, r, i, p) && own[j] == p;
    } else {
      assert StartsAt(above, s, j, p) && own[i] == p;
    }
  }

  // ---------------------------------------------------------------- starts at few positions

  /** Any two of the starts are equal or at least 4 apart. */
  ghost predicate Spread(xs: seq<nat>) { forall x, y :: x in xs && y in xs && x < y ==> y - x >= 4 }

  /** The groups are the runs of equal starts, in order. */
  ghost predicate Runs(cs: seq<seq<nat>>, xs: seq<nat>) {
    && (forall k :: 0 <= k < |cs| ==> cs[k] != [] && forall i :: 0 <= i < |cs[k]| ==> cs[k][i] == cs[k][0])
    && (forall k, l :: 0 <= k < l < |cs| ==> cs[k][0] < cs[l][0])
    && (forall k :: 0 <= k < |cs| ==> |cs[k]| == multiset(xs)[cs[k][0]])
    && (forall x :: x in xs ==> exists k :: 0 <= k < |cs| && cs[k][0] == x)
  }

  lemma RunsOpen(cs: seq<seq<nat>>, xs: seq<nat>, x: nat)
    requires Runs(cs, xs) && forall y :: y in xs ==> y < x
    ensures Runs(cs + [[x]], xs + [x])
  {
    forall k | 0 <= k < |cs| ensures cs[k][0] < x { assert cs[k][0] in multiset(xs) && cs[k][0] in xs; }
    assert x !in xs;
    assert multiset(xs)[x] == 0 && multiset(xs + [x]) == multiset(xs) + multiset{x};
    forall y | y in xs + [x] ensures exists k :: 0 <= k < |cs| + 1 && (cs + [[x]])[k][0] == y {
      if y in xs {
        var k :| 0 <= k < |cs| && cs[k][0] == y;
        assert (cs + [[x]])[k][0] == y;
      } else {
        assert (cs + [[x]])[|cs|][0] == y;
      }
    }
  }

  lemma RunsJoin(cs: seq<seq<nat>>, xs: seq<nat>, x: nat)
    requires Runs(cs, xs) && cs != [] && cs[|cs| - 1] != [] && cs[|cs| - 1][0] == x
    ensures Runs(cs[|cs| - 1 := cs[|cs| - 1] + [x]], xs + [x])
  {
    var after := cs[|cs| - 1 := cs[|cs| - 1] + [x]];
    assert x in xs by { assert multiset(xs)[x] > 0; }
    assert forall k :: 0 <= k < |cs| ==> after[k][0] == cs[k][0];
    forall y | y in xs + [x] ensures exists k :: 0 <= k < |after| && after[k][0] == y {
      assert y in xs;
      var k :| 0 <= k < |cs| && cs[k][0] == y;
      assert after[k][0] == y;
    }
  }

  lemma RunsLast(cs: seq<seq<nat>>, xs: seq<nat>)
    requires Runs(cs, xs) && xs != [] && Sorted(xs)
    ensures cs != [] && cs[|cs| - 1] != [] && Mean(cs[|cs| - 1]) == cs[|cs| - 1][0] == xs[|xs| - 1]
  {
    var x := xs[|xs| - 1];
    assert x in xs;
    var k :| 0 <= k < |cs| && cs[k][0] == x;
    var last := cs[|cs| - 1];
    assert last[0] in xs by { assert multiset(xs)[last[0]] > 0; }
    MeanBounds(last, last[0], last[0]);
  }

  lemma SpreadEarlier(xs: seq<nat>, n: nat)
    requires |xs| == n + 1 && Sorted(xs) && Spread(xs)
    ensures Sorted(xs[..n]) && Spread(xs[..n]) && forall y :: y in xs[..n] ==> y <= xs[n]
    ensures n > 0 ==> xs[n - 1] == xs[n] || xs[n - 1] + 4 <= xs[n]
    ensures n > 0 ==> forall y :: y in xs[..n] ==> y <= xs[n - 1]
  {
    assert forall y :: y in xs[..n] ==> y in xs;
    if n > 0 { assert xs[n - 1] in xs && xs[n] in xs; }
  }

  lemma NoRuns()
    ensures Runs([], []) && Clusters([]) == []
  {
  }

  lemma FirstRun(x: nat)
    ensures Runs(Clusters([x]), [x])
  {
    NoRuns();
    assert [x][..0] == [] && Clusters([x]) == [[x]];
    hide Runs, Clusters;
    RunsOpen([], [], x);
    assert [] + [[x]] == [[x]] && [] + [x] == [x];
  }

  lemma ClustersJoin(before: seq<nat>, x: nat, cs: seq<seq<nat>>)
    requires cs == Clusters(before) && cs != [] && Mean(cs[|cs| - 1]) == x
    ensures Clusters(before + [x]) == cs[|cs| - 1 := cs[|cs| - 1] + [x]]
  {
    hide Mean;
    assert (before + [x])[..|before|] == before;
  }

  lemma ClustersOpen(before: seq<nat>, x: nat, cs: seq<seq<nat>>)
    requires cs == Clusters(before) && cs != [] && Mean(cs[|cs| - 1]) + 4 <= x
    ensures Clusters(before + [x]) == cs + [[x]]
  {
    hide Mean;
    assert (before + [x])[..|before|] == before;
  }

  lemma NextRun(before: seq<nat>, x: nat, cs: seq<seq<nat>>)
    requires before != [] && Sorted(before) && Runs(cs, before) && cs == Clusters(before)
    requires forall y :: y in before ==> y <= before[|before| - 1]
    requires before[|before| - 1] == x || before[|before| - 1] + 4 <= x
    ensures Runs(Clusters(before + [x]), before + [x])
  {
    RunsLast(cs, before);
    hide Runs, Clusters, Mean, Sorted;
    if x == before[|before| - 1] {
      ClustersJoin(before, x, cs);
      RunsJoin(cs, before, x);
    } else {
      ClustersOpen(before, x, cs);
      RunsOpen(cs, before, x);
    }
  }

  lemma {:induction false} ClustersAreRuns(xs: seq<nat>)
    requires Sorted(xs) && Spread(xs)
    ensures Runs(Clusters(xs), xs)
    decreases |xs|
  {
    hide Clusters, Runs, Sorted, Spread;
    if xs == [] {
      NoRuns();
    } else if |xs| == 1 {
      FirstRun(xs[0]);
      assert xs == [xs[0]];
    } else {
      var n := |xs| - 1;
      SpreadEarlier(xs, n);
      ClustersAreRuns(xs[..n]);
      NextRun(xs[..n], xs[n], Clusters(xs[..n]));
      assert xs == xs[..n] + [xs[n]];
    }
  }

  ghost predicate CenterOf(cs: seq<seq<nat>>, x: nat) {
    exists k :: 0 <= k < |cs| && cs[k] != [] && cs[k][0] == x && |cs[k]| >= 2
  }

  lemma CenterOfSnoc(cs: seq<seq<nat>>, n: nat, x: nat)
    requires |cs| == n + 1 && cs[n] != []
    ensures CenterOf(cs, x) <==> CenterOf(cs[..n], x) || (x == cs[n][0] && |cs[n]| >= 2)
  {
    var before := cs[..n];
    if CenterOf(before, x) {
      var k :| 0 <= k < n && before[k] != [] && before[k][0] == x && |before[k]| >= 2;
      assert cs[k] == before[k];
    }
    if CenterOf(cs, x) {
      var k :| 0 <= k < |cs| && cs[k] != [] && cs[k][0] == x && |cs[k]| >= 2;
      if k < n { assert before[k] == cs[k]; }
    }
  }

  lemma CentersBefore(cs: seq<seq<nat>>, n: nat, x: nat)
    requires |cs| == n + 1 && cs[n] != [] && CenterOf(cs[..n], x)
    requires forall k :: 0 <= k < n ==> cs[k] != [] && cs[k][0] < cs[n][0]
    ensures x < cs[n][0]
  {
    var k :| 0 <= k < n && cs[..n][k] != [] && cs[..n][k][0] == x && |cs[..n][k]| >= 2;
    assert cs[k] == cs[..n][k];
  }

  lemma IncreasingSnoc(xs: seq<nat>, x: nat)
    requires Increasing(xs) && forall y: nat :: y in xs ==> y < x
    ensures Increasing(xs + [x])
  {
    assert forall i :: 0 <= i < |xs| ==> xs[i] in xs;
  }

  lemma {:induction false} CentersOfRuns(cs: seq<seq<nat>>)
    requires forall k :: 0 <= k < |cs| ==> cs[k] != [] && forall i :: 0 <= i < |cs[k]| ==> cs[k][i] == cs[k][0]
    requires forall k, l :: 0 <= k < l < |cs| ==> cs[k][0] < cs[l][0]
    ensures Increasing(Centers(cs))
    ensures forall x: nat :: x in Centers(cs) <==> CenterOf(cs, x)
  {
    hide Mean, CenterOf, Increasing;
    if cs == [] {
      NoCenters();
    } else {
      var n := |cs| - 1;
      CentersOfRuns(cs[..n]);
      MeanBounds(cs[n], cs[n][0], cs[n][0]);
      forall x: nat | x in Centers(cs[..n]) ensures x < cs[n][0] { CentersBefore(cs, n, x); }
      IncreasingSnoc(Centers(cs[..n]), cs[n][0]);
      forall x: nat ensures x in Centers(cs) <==> CenterOf(cs, x) { CenterOfSnoc(cs, n, x); }
    }
  }

  lemma NoCenters()
    ensures Increasing(Centers([])) && forall x: nat :: x in Centers([]) <==> CenterOf([], x)
  {
  }

  lemma {:induction false} IncreasingIsUnique(a: seq<nat>, b: seq<nat>)
    requires Increasing(a) && Increasing(b) && forall x: nat :: x in a <==> x in b
    ensures a == b
  {
    if a == [] {
      assert forall i :: 0 <= i < |b| ==> b[i] in b;
    } else {
      var m, n := |a| - 1, |b| - 1;
      assert a[m] in b;
      assert b[n] in a;
      AllButLast(a, a[m]);
      AllButLast(b, b[n]);
      forall x: nat ensures x in a[..m] <==> x in b[..n] {
        assert x in a[..m] <==> x in a && x != a[m];
        assert x in b[..n] <==> x in b && x != b[n];
      }
      IncreasingIsUnique(a[..m], b[..n]);
      assert a == a[..m] + [a[m]] && b == b[..n] + [b[n]];
    }
  }

  // ---------------------------------------------------------------- the page

  /** At least two rows have two or more segments. */
  ghost predicate HasMultiRows(rows: seq<Row>) {
    exists r, s :: 0 <= r < s < |rows| && |rows[r]| >= 2 && |rows[s]| >= 2
  }

  ghost predicate HasMultiRow(rows: seq<Row>) { exists r :: 0 <= r < |rows| && |rows[r]| >= 2 }

  lemma {:induction false} MultiRowsExactly(rows: seq<Row>)
    ensures MultiRows(rows) != [] <==> HasMultiRow(rows)
    ensures |MultiRows(rows)| >= 2 <==> HasMultiRows(rows)
  {
    if rows != [] {
      var n := |rows| - 1;
      MultiRowsExactly(rows[..n]);
      MultiRowsSplit(rows, n);
      hide HasMultiRow, HasMultiRows;
    }
  }

  lemma MultiRowsSplit(rows: seq<Row>, n: nat)
    requires |rows| == n + 1
    ensures HasMultiRow(rows) <==> HasMultiRow(rows[..n]) || |rows[n]| >= 2
    ensures HasMultiRows(rows) <==> HasMultiRows(rows[..n]) || (HasMultiRow(rows[..n]) && |rows[n]| >= 2)
  {
    var above := rows[..n];
    assert forall r :: 0 <= r < n ==> above[r] == rows[r];
    if HasMultiRows(above) {
      var r, s :| 0 <= r < s < n && |above[r]| >= 2 && |above[s]| >= 2;
      assert |rows[r]| >= 2 && |rows[s]| >= 2;
    }
    if HasMultiRow(above) {
      var r :| 0 <= r < n && |above[r]| >= 2;
      assert |rows[r]| >= 2;
    }
    if HasMultiRows(rows) {
      var r, s :| 0 <= r < s < |rows| && |rows[r]| >= 2 && |rows[s]| >= 2;
      assert |above[r]| >= 2 && (s < n ==> |above[s]| >= 2);
    }
  }

  /**
   * The page is set at `positions`: at least two rows have two or more segments, the starts in
   * those rows are equal or at least 4 apart, and `positions` are those taken at least twice, two
   * or more and at least 12 apart.
   */
  ghost predicate SetAt(rows: seq<Row>, positions: seq<nat>) {
    && HasMultiRows(rows)
    && (forall p, q :: Taken(rows, p) && Taken(rows, q) && p < q ==> q - p >= 4)
    && |positions| >= 2
    && (forall i, j :: 0 <= i < j < |positions| ==> positions[i] + 12 <= positions[j])
    && (forall p: nat :: p in positions <==> TakenTwice(rows, p))
  }

  /** A page that is set at some positions has exactly these columns. */
  lemma ColumnsOfPage(rows: seq<Row>, positions: seq<nat>)
    requires SetAt(rows, positions)
    ensures ColumnStarts(rows) == positions
  {
    hide HasMultiRows, Taken, TakenTwice, Sort, Clusters, Centers, Separated, MultiRows, AllStarts;
    MultiRowsExactly(rows);
    var xs := Sort(Starts(rows));
    SortSorts(Starts(rows));
    SpreadOut(rows, xs);
    ClustersAreRuns(xs);
    var cs := Clusters(xs);
    CentersOfRuns(cs);
    forall p: nat ensures p in Centers(cs) <==> p in positions {
      TakenTwiceExactly(rows, p);
      if p in positions {
        assert p in multiset(xs);
        assert p in xs;
        var k :| 0 <= k < |cs| && cs[k][0] == p;
        assert |cs[k]| >= 2;
      }
    }
    IncreasingIsUnique(Centers(cs), positions);
    SeparatedKeeps(positions);
  }

  lemma SpreadOut(rows: seq<Row>, xs: seq<nat>)
    requires multiset(xs) == multiset(Starts(rows))
    requires forall p, q :: Taken(rows, p) && Taken(rows, q) && p < q ==> q - p >= 4
    ensures Spread(xs)
  {
    hide Taken, Starts;
    forall x | x in xs ensures Taken(rows, x) {
      assert x in multiset(xs) && x in Starts(rows);
      TakenExactly(rows, x);
    }
  }

  /** The starts of a page by columns: cut into groups by the rule of 4, the means 12 apart, in order. */
  lemma ColumnsOfGroups(rows: seq<Row>, groups: seq<seq<nat>>, chosen: seq<nat>, means: seq<nat>)
    requires HasMultiRows(rows)
    requires Grouped(groups) && Sorted(Flatten(groups)) && multiset(Flatten(groups)) == multiset(Starts(rows))
    requires Increasing(chosen) && forall k: nat :: k in chosen <==> k < |groups| && |groups[k]| >= 2
    requires AreMeans(groups, chosen, means)
    requires |means| >= 2 && forall i, j :: 0 <= i < j < |means| ==> means[i] + 12 <= means[j]
    ensures ColumnStarts(rows) == means
  {
    hide HasMultiRows, Sort, Clusters, Centers, Separated, MultiRows, AllStarts, Flatten, Mean;
    MultiRowsExactly(rows);
    SortSorts(Starts(rows));
    SortedIsUnique(Sort(Starts(rows)), Flatten(groups));
    ClustersExactly(Flatten(groups), groups);
    CentersExactly(groups, chosen, means);
    SeparatedKeeps(means);
  }

  lemma {:induction false} SortedIsUnique(a: seq<nat>, b: seq<nat>)
    requires Sorted(a) && Sorted(b) && multiset(a) == multiset(b)
    ensures a == b
  {
    assert |a| == |multiset(a)| == |multiset(b)| == |b|;
    if a != [] {
      LargestLast(a, b);
      LargestLast(b, a);
      WithoutLast(a);
      WithoutLast(b);
      hide Sorted;
      SortedIsUnique(a[..|a| - 1], b[..|b| - 1]);
    }
  }

  lemma WithoutLast(a: seq<nat>)
    requires Sorted(a) && a != []
    ensures
      var n := |a| - 1;
      a == a[..n] + [a[n]] && Sorted(a[..n]) && multiset(a[..n]) == multiset(a) - multiset{a[n]}
  {
    var n := |a| - 1;
    assert a == a[..n] + [a[n]];
    assert multiset(a) == multiset(a[..n]) + multiset{a[n]};
  }

  lemma LargestLast(a: seq<nat>, b: seq<nat>)
    requires Sorted(b) && multiset(a) == multiset(b) && a != [] && |a| == |b|
    ensures a[|a| - 1] <= b[|b| - 1]
  {
    assert a[|a| - 1] in multiset(a);
    assert a[|a| - 1] in b;
  }

  /** A page with columns has two rows of two or more segments, and two columns at least 12 apart or more. */
  lemma ColumnsNeedRows(rows: seq<Row>)
    requires ColumnStarts(rows) != []
    ensures HasMultiRows(rows) && |ColumnStarts(rows)| >= 2
    ensures forall i, j :: 0 <= i < j < |ColumnStarts(rows)| ==> ColumnStarts(rows)[i] + 12 <= ColumnStarts(rows)[j]
  {
    MultiRowsExactly(rows);
  }
}
