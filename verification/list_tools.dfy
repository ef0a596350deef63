/** `ListTools.GroupByProximity` (ListTools.cs): the points, ordered by X,
    are cut into groups wherever the next X lies more than `threshold`
    above the running mean X of the group being built. */
module ListTools {
  import opened Numerics
  import opened Points

  // ---------------------------------------------------------------------
  // The stable ordering of `source.OrderBy(dp => dp.X)`
  // ---------------------------------------------------------------------

  ghost predicate SortedByX(s: seq<DataPoint>) {
    forall i, j :: 0 <= i < j < |s| ==> s[i].x <= s[j].x
  }

  /** The points of `s` whose X equals `k`, in their order in `s`. */
  function WithKey(s: seq<DataPoint>, k: real): seq<DataPoint>
    decreases |s|
  {
    if |s| == 0 then []
    else (if s[0].x == k then [s[0]] else []) + WithKey(s[1..], k)
  }

  /** A stable sort keeps, for every key, the relative order of the points
      carrying that key. */
  ghost predicate StableFor(s: seq<DataPoint>, r: seq<DataPoint>) {
    forall k :: WithKey(r, k) == WithKey(s, k)
  }

  /** Puts `p` in front of the first point of `t` whose X is not below `p.x`. */
  function Insert(p: DataPoint, t: seq<DataPoint>): (r: seq<DataPoint>)
    ensures multiset(r) == multiset(t) + multiset{p}
    decreases |t|
  {
    if |t| == 0 || p.x <= t[0].x then [p] + t
    else
      assert t == [t[0]] + t[1..];
      [t[0]] + Insert(p, t[1..])
  }

  lemma {:induction false} InsertSorted(p: DataPoint, t: seq<DataPoint>)
    requires SortedByX(t)
    ensures SortedByX(Insert(p, t))
    decreases |t|
  {
    if |t| == 0 || p.x <= t[0].x {
      var r := [p] + t;
      forall i, j | 0 <= i < j < |r| ensures r[i].x <= r[j].x {
        if i > 0 {
          assert r[i] == t[i - 1] && r[j] == t[j - 1];
        } else {
          assert r[j] == t[j - 1];
        }
      }
    } else {
      var rest := Insert(p, t[1..]);
      InsertSorted(p, t[1..]);
      var r := [t[0]] + rest;
      forall j | 0 < j < |r| ensures t[0].x <= r[j].x {
        var q := rest[j - 1];
        assert r[j] == q;
        assert q in multiset(rest);
        if q != p {
          assert q in multiset(t[1..]);
          var m :| 0 <= m < |t[1..]| && t[1..][m] == q;
          assert t[m + 1] == q;
        }
      }
      forall i, j | 0 <= i < j < |r| ensures r[i].x <= r[j].x {
        if i > 0 {
          assert r[i] == rest[i - 1] && r[j] == rest[j - 1];
        }
      }
    }
  }

  lemma WithKeyCons(a: DataPoint, t: seq<DataPoint>, k: real)
    ensures WithKey([a] + t, k) == (if a.x == k then [a] else []) + WithKey(t, k)
  {
    assert ([a] + t)[0] == a;
    assert ([a] + t)[1..] == t;
  }

  lemma {:induction false} InsertWithKey(p: DataPoint, t: seq<DataPoint>, k: real)
    ensures WithKey(Insert(p, t), k) == (if p.x == k then [p] else []) + WithKey(t, k)
    decreases |t|
  {
    if |t| == 0 || p.x <= t[0].x {
      WithKeyCons(p, t, k);
    } else {
      InsertWithKey(p, t[1..], k);
      WithKeyCons(t[0], Insert(p, t[1..]), k);
      WithKeyCons(t[0], t[1..], k);
      assert [t[0]] + t[1..] == t;
    }
  }

  /** `OrderBy(dp => dp.X)`: LINQ's ordering is a stable sort. */
  function SortByX(s: seq<DataPoint>): (r: seq<DataPoint>)
    ensures SortedByX(r)
    ensures multiset(r) == multiset(s)
    ensures StableFor(s, r)
    decreases |s|
  {
    if |s| == 0 then []
    else
      var rest := SortByX(s[1..]);
      assert s == [s[0]] + s[1..];
      InsertSorted(s[0], rest);
      assert StableFor(s, Insert(s[0], rest)) by {
        forall k ensures WithKey(Insert(s[0], rest), k) == WithKey(s, k) {
          InsertWithKey(s[0], rest, k);
          WithKeyCons(s[0], s[1..], k);
        }
      }
      Insert(s[0], rest)
  }

  /** Sorting an already sorted list changes nothing. */
  lemma {:induction false} SortSortedIsIdentity(s: seq<DataPoint>)
    requires SortedByX(s)
    ensures SortByX(s) == s
    decreases |s|
  {
    if |s| > 0 {
      assert SortedByX(s[1..]) by {
        forall i, j | 0 <= i < j < |s[1..]| ensures s[1..][i].x <= s[1..][j].x {
          assert s[1..][i] == s[i + 1] && s[1..][j] == s[j + 1];
        }
      }
      SortSortedIsIdentity(s[1..]);
      assert s == [s[0]] + s[1..];
    }
  }

  // ---------------------------------------------------------------------
  // The scan
  // ---------------------------------------------------------------------

  /** One step of the `foreach`: `g` is the group being built and `rest` the
      points still to visit. A point that lies more than `threshold` above
      the mean of a non-empty `g` closes `g`; the final `g` is always
      emitted, even when it is empty. */
  function Scan(rest: seq<DataPoint>, g: seq<DataPoint>, threshold: real): seq<seq<DataPoint>>
    decreases |rest|
  {
    if |rest| == 0 then [g]
    else if |g| != 0 && rest[0].x > MeanX(g) + threshold then [g] + Scan(rest[1..], [rest[0]], threshold)
    else Scan(rest[1..], g + [rest[0]], threshold)
  }

  /** `source.GroupByProximity(threshold)`, materialised. */
  function GroupByProximity(source: seq<DataPoint>, threshold: real): seq<seq<DataPoint>> {
    Scan(SortByX(source), [], threshold)
  }

  function Flatten(gs: seq<seq<DataPoint>>): seq<DataPoint>
    decreases |gs|
  {
    if |gs| == 0 then [] else gs[0] + Flatten(gs[1..])
  }

  // ---------------------------------------------------------------------
  // Properties of the groups
  // ---------------------------------------------------------------------

  ghost predicate AllNonEmpty(gs: seq<seq<DataPoint>>) {
    forall i :: 0 <= i < |gs| ==> |gs[i]| > 0
  }

  /** Each point after the first was admitted because it was within
      `threshold` of the mean of the points before it in the group. */
  ghost predicate Admitted(g: seq<DataPoint>, threshold: real) {
    forall k :: 1 <= k < |g| ==> g[k].x <= MeanX(g[..k]) + threshold
  }

  /** Group `i` starts with a point more than `threshold` above the mean of
      group `i - 1`. */
  ghost predicate SplitAt(gs: seq<seq<DataPoint>>, i: int, threshold: real)
    requires 1 <= i < |gs|
  {
    |gs[i - 1]| > 0 && |gs[i]| > 0 && gs[i][0].x > MeanX(gs[i - 1]) + threshold
  }

  /** Each group after the first starts with a point more than `threshold`
      above the mean of the previous group. */
  ghost predicate SplitAbove(gs: seq<seq<DataPoint>>, threshold: real) {
    forall i :: 1 <= i < |gs| ==> SplitAt(gs, i, threshold)
  }

  /** Every X of an earlier group is at most every X of a later group. */
  ghost predicate GroupsOrdered(gs: seq<seq<DataPoint>>) {
    forall i, j, p, q :: 0 <= i < j < |gs| && 0 <= p < |gs[i]| && 0 <= q < |gs[j]| ==> gs[i][p].x <= gs[j][q].x
  }

  lemma {:induction false} ScanFlatten(rest: seq<DataPoint>, g: seq<DataPoint>, threshold: real)
    ensures Flatten(Scan(rest, g, threshold)) == g + rest
    decreases |rest|
  {
    if |rest| == 0 {
      assert Flatten([g]) == g + Flatten([g][1..]);
    } else if |g| != 0 && rest[0].x > MeanX(g) + threshold {
      var tail := Scan(rest[1..], [rest[0]], threshold);
      ScanFlatten(rest[1..], [rest[0]], threshold);
      assert ([g] + tail)[1..] == tail;
      assert rest == [rest[0]] + rest[1..];
    } else {
      ScanFlatten(rest[1..], g + [rest[0]], threshold);
      assert rest == [rest[0]] + rest[1..];
    }
  }

  /** The first group emitted by a scan extends the group it starts with. */
  lemma {:induction false} ScanHead(rest: seq<DataPoint>, g: seq<DataPoint>, threshold: real)
    ensures |Scan(rest, g, threshold)| > 0
    ensures |g| <= |Scan(rest, g, threshold)[0]|
    ensures Scan(rest, g, threshold)[0][..|g|] == g
    decreases |rest|
  {
    if |rest| == 0 {
    } else if |g| != 0 && rest[0].x > MeanX(g) + threshold {
    } else {
      ScanHead(rest[1..], g + [rest[0]], threshold);
      var h := Scan(rest[1..], g + [rest[0]], threshold)[0];
      assert h[..|g|] == h[..|g| + 1][..|g|];
    }
  }

  lemma {:induction false} ScanNonEmpty(rest: seq<DataPoint>, g: seq<DataPoint>, threshold: real)
    requires |g| > 0 || |rest| > 0
    ensures AllNonEmpty(Scan(rest, g, threshold))
    decreases |rest|
  {
    if |rest| == 0 {
    } else if |g| != 0 && rest[0].x > MeanX(g) + threshold {
      ScanNonEmpty(rest[1..], [rest[0]], threshold);
    } else {
      ScanNonEmpty(rest[1..], g + [rest[0]], threshold);
    }
  }

  lemma AdmittedExtend(g: seq<DataPoint>, p: DataPoint, threshold: real)
    requires Admitted(g, threshold)
    requires |g| == 0 || p.x <= MeanX(g) + threshold
    ensures Admitted(g + [p], threshold)
  {
    var h := g + [p];
    forall k | 1 <= k < |h|
      ensures h[k].x <= MeanX(h[..k]) + threshold
    {
      assert h[..k] == g[..k];
      if k < |g| {
        assert h[k] == g[k];
      } else {
        assert h[..k] == g;
      }
    }
  }

  lemma {:induction false} ScanAdmitted(rest: seq<DataPoint>, g: seq<DataPoint>, threshold: real)
    requires Admitted(g, threshold)
    ensures forall i :: 0 <= i < |Scan(rest, g, threshold)| ==> Admitted(Scan(rest, g, threshold)[i], threshold)
    decreases |rest|
  {
    if |rest| == 0 {
    } else if |g| != 0 && rest[0].x > MeanX(g) + threshold {
      ScanAdmitted(rest[1..], [rest[0]], threshold);
      var tail := Scan(rest[1..], [rest[0]], threshold);
      assert forall i :: 1 <= i < |[g] + tail| ==> ([g] + tail)[i] == tail[i - 1];
    } else {
      AdmittedExtend(g, rest[0], threshold);
      ScanAdmitted(rest[1..], g + [rest[0]], threshold);
    }
  }

  lemma {:induction false} ScanSplitAbove(rest: seq<DataPoint>, g: seq<DataPoint>, threshold: real)
    requires |g| > 0 || |rest| > 0
    ensures SplitAbove(Scan(rest, g, threshold), threshold)
    decreases |rest|
  {
    if |rest| == 0 {
    } else if |g| != 0 && rest[0].x > MeanX(g) + threshold {
      ScanSplitAbove(rest[1..], [rest[0]], threshold);
      ScanHead(rest[1..], [rest[0]], threshold);
      ScanNonEmpty(rest[1..], [rest[0]], threshold);
      var tail := Scan(rest[1..], [rest[0]], threshold);
      assert tail[0][0] == tail[0][..1][0];
      var gs: seq<seq<DataPoint>> := [g] + tail;
      forall i | 1 <= i < |gs|
        ensures SplitAt(gs, i, threshold)
      {
        if i == 1 {
          assert gs[0] == g && gs[1] == tail[0];
        } else {
          assert gs[i - 1] == tail[i - 2] && gs[i] == tail[i - 1];
          assert SplitAt(tail, i - 1, threshold);
        }
      }
    } else {
      ScanSplitAbove(rest[1..], g + [rest[0]], threshold);
    }
  }

  /** A point of a group is a point of the flattened list. */
  lemma {:induction false} InFlatten(gs: seq<seq<DataPoint>>, j: int, q: int)
    requires 0 <= j < |gs| && 0 <= q < |gs[j]|
    ensures gs[j][q] in Flatten(gs)
    decreases |gs|
  {
    if j == 0 {
      assert Flatten(gs) == gs[0] + Flatten(gs[1..]);
      assert Flatten(gs)[q] == gs[0][q];
    } else {
      InFlatten(gs[1..], j - 1, q);
      assert gs[1..][j - 1] == gs[j];
    }
  }

  lemma {:induction false} ScanOrdered(rest: seq<DataPoint>, g: seq<DataPoint>, threshold: real)
    requires SortedByX(g + rest)
    ensures GroupsOrdered(Scan(rest, g, threshold))
    decreases |rest|
  {
    if |rest| == 0 {
    } else if |g| != 0 && rest[0].x > MeanX(g) + threshold {
      assert [rest[0]] + rest[1..] == rest;
      assert SortedByX(rest) by {
        forall i, j | 0 <= i < j < |rest| ensures rest[i].x <= rest[j].x {
          assert (g + rest)[|g| + i] == rest[i];
          assert (g + rest)[|g| + j] == rest[j];
        }
      }
      ScanOrdered(rest[1..], [rest[0]], threshold);
      var tail := Scan(rest[1..], [rest[0]], threshold);
      ScanFlatten(rest[1..], [rest[0]], threshold);
      var gs: seq<seq<DataPoint>> := [g] + tail;
      forall i, j, p, q | 0 <= i < j < |gs| && 0 <= p < |gs[i]| && 0 <= q < |gs[j]|
        ensures gs[i][p].x <= gs[j][q].x
      {
        if i == 0 {
          assert gs[j] == tail[j - 1];
          InFlatten(tail, j - 1, q);
          var m :| 0 <= m < |rest| && rest[m] == gs[j][q];
          assert (g + rest)[p] == g[p];
          assert (g + rest)[|g| + m] == rest[m];
        } else {
          assert gs[i] == tail[i - 1] && gs[j] == tail[j - 1];
        }
      }
    } else {
      assert (g + [rest[0]]) + rest[1..] == g + rest;
      ScanOrdered(rest[1..], g + [rest[0]], threshold);
    }
  }

  lemma SortedParts(a: seq<DataPoint>, b: seq<DataPoint>)
    requires SortedByX(a + b)
    ensures SortedByX(a) && SortedByX(b)
  {
    forall i, j | 0 <= i < j < |a| ensures a[i].x <= a[j].x {
      assert (a + b)[i] == a[i] && (a + b)[j] == a[j];
    }
    forall i, j | 0 <= i < j < |b| ensures b[i].x <= b[j].x {
      assert (a + b)[|a| + i] == b[i] && (a + b)[|a| + j] == b[j];
    }
  }

  lemma {:induction false} ScanGroupsSorted(rest: seq<DataPoint>, g: seq<DataPoint>, threshold: real)
    requires SortedByX(g + rest)
    ensures forall i :: 0 <= i < |Scan(rest, g, threshold)| ==> SortedByX(Scan(rest, g, threshold)[i])
    decreases |rest|
  {
    if |rest| == 0 {
      assert g + rest == g;
    } else if |g| != 0 && rest[0].x > MeanX(g) + threshold {
      SortedParts(g, rest);
      assert [rest[0]] + rest[1..] == rest;
      ScanGroupsSorted(rest[1..], [rest[0]], threshold);
      var tail := Scan(rest[1..], [rest[0]], threshold);
      assert forall i :: 1 <= i < |[g] + tail| ==> ([g] + tail)[i] == tail[i - 1];
    } else {
      assert (g + [rest[0]]) + rest[1..] == g + rest;
      ScanGroupsSorted(rest[1..], g + [rest[0]], threshold);
    }
  }

  // ---------------------------------------------------------------------
  // The promises of GroupByProximity
  // ---------------------------------------------------------------------

  /** Concatenating the groups gives back the input stably sorted by X:
      nothing is lost, duplicated or reordered beyond the sort. */
  lemma GroupsConcatenateToSorted(source: seq<DataPoint>, threshold: real)
    ensures Flatten(GroupByProximity(source, threshold)) == SortByX(source)
    ensures multiset(Flatten(GroupByProximity(source, threshold))) == multiset(source)
  {
    ScanFlatten(SortByX(source), [], threshold);
  }

  /** An empty input yields exactly one group, and that group is empty. */
  lemma EmptyInputOneEmptyGroup(threshold: real)
    ensures GroupByProximity([], threshold) == [[]]
  {
  }

  /** A non-empty input yields only non-empty groups. */
  lemma GroupsNonEmpty(source: seq<DataPoint>, threshold: real)
    requires |source| > 0
    ensures AllNonEmpty(GroupByProximity(source, threshold))
  {
    assert |SortByX(source)| == |source| by {
      assert |multiset(SortByX(source))| == |multiset(source)|;
    }
    ScanNonEmpty(SortByX(source), [], threshold);
  }

  /** The grouping criterion, both ways: inside a group every later point is
      within `threshold` of the mean before it, and every group boundary is
      a jump of more than `threshold` above the previous group's mean. */
  lemma GroupsRespectThreshold(source: seq<DataPoint>, threshold: real)
    ensures forall i :: 0 <= i < |GroupByProximity(source, threshold)| ==> Admitted(GroupByProximity(source, threshold)[i], threshold)
    ensures SplitAbove(GroupByProximity(source, threshold), threshold)
  {
    assert |SortByX(source)| == |source| by {
      assert |multiset(SortByX(source))| == |multiset(source)|;
    }
    ScanAdmitted(SortByX(source), [], threshold);
    if |source| == 0 {
      EmptyInputOneEmptyGroup(threshold);
      assert source == [];
    } else {
      ScanSplitAbove(SortByX(source), [], threshold);
    }
  }

  /** The groups are ordered along X. */
  lemma GroupsAreOrdered(source: seq<DataPoint>, threshold: real)
    ensures GroupsOrdered(GroupByProximity(source, threshold))
  {
    assert [] + SortByX(source) == SortByX(source);
    ScanOrdered(SortByX(source), [], threshold);
  }

  /** Each group is itself ordered along X. */
  lemma GroupsAreSorted(source: seq<DataPoint>, threshold: real)
    ensures forall i :: 0 <= i < |GroupByProximity(source, threshold)| ==> SortedByX(GroupByProximity(source, threshold)[i])
  {
    assert [] + SortByX(source) == SortByX(source);
    ScanGroupsSorted(SortByX(source), [], threshold);
  }

  /** In sorted, ordered, split groups, a later group's mean lies above an
      earlier group's mean, for a non-negative threshold. */
  lemma MeanBelowLaterGroup(gs: seq<seq<DataPoint>>, threshold: real, i: int, j: int)
    requires threshold >= 0.0
    requires 0 <= i < j < |gs|
    requires SplitAbove(gs, threshold) && GroupsOrdered(gs)
    requires SortedByX(gs[j])
    ensures |gs[i]| > 0 && |gs[j]| > 0
    ensures MeanX(gs[i]) < MeanX(gs[j])
  {
    assert SplitAt(gs, i + 1, threshold);
    assert SplitAt(gs, j, threshold);
    var first := gs[i + 1][0].x;
    forall q | 0 <= q < |gs[j]| ensures first <= Xs(gs[j])[q] {
      if i + 1 < j {
        assert gs[i + 1][0].x <= gs[j][q].x;
      } else if q > 0 {
        assert gs[j][0].x <= gs[j][q].x;
      }
    }
    MeanAtLeast(Xs(gs[j]), first);
  }

  /** For a non-negative threshold the group means strictly increase. */
  lemma GroupMeansIncrease(source: seq<DataPoint>, threshold: real)
    requires |source| > 0
    requires threshold >= 0.0
    ensures AllNonEmpty(GroupByProximity(source, threshold))
    ensures var gs := GroupByProximity(source, threshold);
            forall i, j :: 0 <= i < j < |gs| ==> MeanX(gs[i]) < MeanX(gs[j])
  {
    var gs := GroupByProximity(source, threshold);
    GroupsNonEmpty(source, threshold);
    GroupsRespectThreshold(source, threshold);
    GroupsAreOrdered(source, threshold);
    GroupsAreSorted(source, threshold);
    forall i, j | 0 <= i < j < |gs| ensures MeanX(gs[i]) < MeanX(gs[j]) {
      MeanBelowLaterGroup(gs, threshold, i, j);
    }
  }

  lemma SumOfTwo(a: real, b: real)
    ensures Sum([a, b]) == a + b
  {
    assert [a, b][1..] == [b];
    assert [b][1..] == [];
    assert Sum([b]) == b + Sum([]);
  }

  lemma SumOfThree(a: real, b: real, c: real)
    ensures Sum([a, b, c]) == a + b + c
  {
    assert [a, b, c][1..] == [b, c];
    SumOfTwo(b, c);
  }

  /** The points of the worked example, all at Y = 0. */
  function ExamplePoints(): seq<DataPoint> {
    [NewDataPoint(1.0, 0.0), NewDataPoint(2.0, 0.0), NewDataPoint(3.0, 0.0),
     NewDataPoint(10.0, 0.0), NewDataPoint(11.0, 0.0), NewDataPoint(12.0, 0.0)]
  }

  lemma ExampleScan()
    ensures var ps := ExamplePoints(); Scan(ps, [], 2.0) == [ps[..3], ps[3..]]
  {
    var ps := ExamplePoints();
    assert Xs(ps[..1]) == [1.0];
    assert Sum([1.0]) == 1.0 + Sum([]);
    assert Xs(ps[..2]) == [1.0, 2.0];
    SumOfTwo(1.0, 2.0);
    assert Xs(ps[..3]) == [1.0, 2.0, 3.0];
    SumOfThree(1.0, 2.0, 3.0);
    assert Xs(ps[3..4]) == [10.0];
    assert Sum([10.0]) == 10.0 + Sum([]);
    assert Xs(ps[3..5]) == [10.0, 11.0];
    SumOfTwo(10.0, 11.0);
    assert ps[3..5] + [ps[5]] == ps[3..];
    assert ps[3..4] + [ps[4]] == ps[3..5];
    assert ps[..2] + [ps[2]] == ps[..3];
    assert ps[..1] + [ps[1]] == ps[..2];
    assert [] + [ps[0]] == ps[..1];
    assert Scan(ps[6..], ps[3..], 2.0) == [ps[3..]];
    assert Scan(ps[5..], ps[3..5], 2.0) == [ps[3..]];
    assert Scan(ps[4..], ps[3..4], 2.0) == [ps[3..]];
    assert ps[3..][1..] == ps[4..];
    assert [ps[3..][0]] == ps[3..4];
    assert ps[3..][0].x > MeanX(ps[..3]) + 2.0;
    assert Scan(ps[3..], ps[..3], 2.0) == [ps[..3], ps[3..]];
    assert Scan(ps[2..], ps[..2], 2.0) == [ps[..3], ps[3..]];
    assert Scan(ps[1..], ps[..1], 2.0) == [ps[..3], ps[3..]];
  }

  /** X = [1, 2, 3, 10, 11, 12] with threshold 2 gives {1, 2, 3} and
      {10, 11, 12}: the jump from 3 to 10 exceeds mean 2 plus 2. */
  lemma WorkedExample()
    ensures var ps := ExamplePoints(); GroupByProximity(ps, 2.0) == [ps[..3], ps[3..]]
  {
    var ps := ExamplePoints();
    assert SortedByX(ps);
    SortSortedIsIdentity(ps);
    ExampleScan();
  }
}
