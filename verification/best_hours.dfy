/** `analyze_best_learning_time`: the performance history is grouped by
    hour of day in first-seen order, each hour is scored by its mean
    performance, the hours are sorted by that mean, highest first, with
    Python's stable sort (equal means keep their first-seen order), and the
    first three hours are returned. */
module BestHours {
  import opened Seqs

  /** One history entry: the hour of its timestamp and its score. */
  datatype PerformanceRecord = PerformanceRecord(hour: int, score: real)

  /** One entry of the `hourly_performance` dict, together with the index
      of the record that created it. */
  datatype HourScores = HourScores(hour: int, first: nat, scores: seq<real>)

  /** One `(hour, avg_score)` pair of `best_hours`. */
  datatype HourAverage = HourAverage(hour: int, first: nat, avg: real)

  // ---------------------------------------------------------------------
  // Reference vocabulary over the history
  // ---------------------------------------------------------------------

  predicate Seen(recs: seq<PerformanceRecord>, h: int) {
    exists k :: 0 <= k < |recs| && recs[k].hour == h
  }

  /** The index of the first record of hour `h`. */
  function FirstIndex(recs: seq<PerformanceRecord>, h: int): (k: nat)
    requires Seen(recs, h)
    ensures k < |recs| && recs[k].hour == h
    ensures forall j :: 0 <= j < k ==> recs[j].hour != h
    decreases |recs|
  {
    var p := recs[..|recs| - 1];
    if Seen(p, h) then FirstIndex(p, h) else |recs| - 1
  }

  /** The scores recorded at hour `h`, in history order. */
  function ScoresAt(recs: seq<PerformanceRecord>, h: int): (s: seq<real>)
    ensures s != [] <==> Seen(recs, h)
    decreases |recs|
  {
    if recs == [] then []
    else
      var p := recs[..|recs| - 1];
      var last := recs[|recs| - 1];
      assert forall k :: 0 <= k < |p| ==> p[k] == recs[k];
      ScoresAt(p, h) + (if last.hour == h then [last.score] else [])
  }

  /** The mean score at an hour that occurs in the history. */
  function AvgOf(recs: seq<PerformanceRecord>, h: int): real
    requires Seen(recs, h)
  {
    Mean(ScoresAt(recs, h))
  }

  /** The order the ranking produces: higher mean first, and among equal
      means the hour seen first. */
  predicate RanksBefore(recs: seq<PerformanceRecord>, h1: int, h2: int)
    requires Seen(recs, h1) && Seen(recs, h2)
  {
    AvgOf(recs, h1) > AvgOf(recs, h2)
    || (AvgOf(recs, h1) == AvgOf(recs, h2) && FirstIndex(recs, h1) < FirstIndex(recs, h2))
  }

  // ---------------------------------------------------------------------
  // Grouping by hour
  // ---------------------------------------------------------------------

  predicate HasHour(gs: seq<HourScores>, h: int) {
    exists i :: 0 <= i < |gs| && gs[i].hour == h
  }

  predicate DistinctHours(gs: seq<HourScores>) {
    forall i, j :: 0 <= i < j < |gs| ==> gs[i].hour != gs[j].hour
  }

  /** Appends `r.score` to the list of its hour, or opens a new list
      (created by record `k`) at the end when the hour is new. */
  function AddScore(gs: seq<HourScores>, r: PerformanceRecord, k: nat): (res: seq<HourScores>)
    ensures !HasHour(gs, r.hour) ==> res == gs + [HourScores(r.hour, k, [r.score])]
    ensures HasHour(gs, r.hour) && DistinctHours(gs) ==>
              |res| == |gs|
              && forall i :: 0 <= i < |gs| ==>
                   && res[i].hour == gs[i].hour && res[i].first == gs[i].first
                   && res[i].scores == gs[i].scores + (if gs[i].hour == r.hour then [r.score] else [])
  {
    if gs == [] then [HourScores(r.hour, k, [r.score])]
    else if gs[0].hour == r.hour then [gs[0].(scores := gs[0].scores + [r.score])] + gs[1..]
    else
      assert HasHour(gs, r.hour) ==> HasHour(gs[1..], r.hour);
      assert forall i :: 1 <= i < |gs| ==> gs[i] == gs[1..][i - 1];
      [gs[0]] + AddScore(gs[1..], r, k)
  }

  /** The `hourly_performance` dict, built record by record. */
  function Group(recs: seq<PerformanceRecord>): seq<HourScores>
    decreases |recs|
  {
    if recs == [] then []
    else AddScore(Group(recs[..|recs| - 1]), recs[|recs| - 1], |recs| - 1)
  }

  /** `gs` lists every hour of the history once, in order of first
      appearance, with all of that hour's scores. */
  ghost predicate GroupedBy(gs: seq<HourScores>, recs: seq<PerformanceRecord>) {
    && (forall i :: 0 <= i < |gs| ==>
          && Seen(recs, gs[i].hour)
          && gs[i].first == FirstIndex(recs, gs[i].hour)
          && gs[i].scores == ScoresAt(recs, gs[i].hour))
    && (forall i, j :: 0 <= i < j < |gs| ==> gs[i].first < gs[j].first)
    && (forall h :: Seen(recs, h) ==> HasHour(gs, h))
  }

  lemma GroupedHoursDistinct(gs: seq<HourScores>, recs: seq<PerformanceRecord>)
    requires GroupedBy(gs, recs)
    ensures DistinctHours(gs)
  {
  }

  /** One record more in the history: how the reference vocabulary moves
      at hour `h`. */
  lemma SnocAt(recs: seq<PerformanceRecord>, h: int)
    requires recs != []
    ensures var p := recs[..|recs| - 1]; var r := recs[|recs| - 1];
            && (Seen(recs, h) <==> Seen(p, h) || r.hour == h)
            && ScoresAt(recs, h) == ScoresAt(p, h) + (if r.hour == h then [r.score] else [])
            && (Seen(p, h) ==> FirstIndex(recs, h) == FirstIndex(p, h))
            && (!Seen(p, h) && r.hour == h ==> FirstIndex(recs, h) == |recs| - 1)
  {
    var p := recs[..|recs| - 1];
    assert forall k :: 0 <= k < |p| ==> p[k] == recs[k];
    if Seen(recs, h) && !Seen(p, h) {
      var k :| 0 <= k < |recs| && recs[k].hour == h;
      assert k == |recs| - 1;
    }
  }

  /** The step of `Group` for an hour seen before. */
  lemma GroupStepKnown(recs: seq<PerformanceRecord>, gs: seq<HourScores>)
    requires recs != []
    requires GroupedBy(gs, recs[..|recs| - 1])
    requires HasHour(gs, recs[|recs| - 1].hour)
    ensures GroupedBy(AddScore(gs, recs[|recs| - 1], |recs| - 1), recs)
  {
    GroupedHoursDistinct(gs, recs[..|recs| - 1]);
    KnownEntries(recs, gs);
    KnownCoverage(recs, gs);
  }

  lemma KnownEntries(recs: seq<PerformanceRecord>, gs: seq<HourScores>)
    requires recs != []
    requires GroupedBy(gs, recs[..|recs| - 1]) && DistinctHours(gs)
    requires HasHour(gs, recs[|recs| - 1].hour)
    ensures var res := AddScore(gs, recs[|recs| - 1], |recs| - 1);
            && |res| == |gs|
            && (forall i :: 0 <= i < |res| ==>
                  && Seen(recs, res[i].hour)
                  && res[i].first == FirstIndex(recs, res[i].hour)
                  && res[i].scores == ScoresAt(recs, res[i].hour))
            && (forall i, j :: 0 <= i < j < |res| ==> res[i].first < res[j].first)
  {
    var res := AddScore(gs, recs[|recs| - 1], |recs| - 1);
    forall i | 0 <= i < |res|
      ensures && Seen(recs, res[i].hour)
              && res[i].first == FirstIndex(recs, res[i].hour)
              && res[i].scores == ScoresAt(recs, res[i].hour)
    {
      SnocAt(recs, gs[i].hour);
    }
  }

  lemma KnownCoverage(recs: seq<PerformanceRecord>, gs: seq<HourScores>)
    requires recs != []
    requires GroupedBy(gs, recs[..|recs| - 1]) && DistinctHours(gs)
    requires HasHour(gs, recs[|recs| - 1].hour)
    ensures forall h :: Seen(recs, h) ==> HasHour(AddScore(gs, recs[|recs| - 1], |recs| - 1), h)
  {
    var p := recs[..|recs| - 1];
    var r := recs[|recs| - 1];
    var res := AddScore(gs, r, |recs| - 1);
    forall h | Seen(recs, h)
      ensures HasHour(res, h)
    {
      SnocAt(recs, h);
      var i :| 0 <= i < |gs| && gs[i].hour == h;
      assert res[i].hour == h;
    }
  }

  /** The step of `Group` for an hour not seen before. */
  lemma GroupStepNew(recs: seq<PerformanceRecord>, gs: seq<HourScores>)
    requires recs != []
    requires GroupedBy(gs, recs[..|recs| - 1])
    requires !HasHour(gs, recs[|recs| - 1].hour)
    ensures GroupedBy(AddScore(gs, recs[|recs| - 1], |recs| - 1), recs)
  {
    var p := recs[..|recs| - 1];
    var r := recs[|recs| - 1];
    var res := AddScore(gs, r, |recs| - 1);
    assert res == gs + [HourScores(r.hour, |recs| - 1, [r.score])];
    forall i | 0 <= i < |res|
      ensures && Seen(recs, res[i].hour)
              && res[i].first == FirstIndex(recs, res[i].hour)
              && res[i].scores == ScoresAt(recs, res[i].hour)
    {
      SnocAt(recs, res[i].hour);
      if i == |gs| {
        assert !Seen(p, r.hour);
        assert ScoresAt(recs, r.hour) == [] + [r.score];
      } else {
        assert res[i] == gs[i];
      }
    }
    forall i, j | 0 <= i < j < |res|
      ensures res[i].first < res[j].first
    {
      if j == |gs| {
        assert res[i] == gs[i];
      }
    }
    forall h | Seen(recs, h)
      ensures HasHour(res, h)
    {
      SnocAt(recs, h);
      if h == r.hour {
        assert res[|gs|].hour == h;
      } else {
        var i :| 0 <= i < |gs| && gs[i].hour == h;
        assert res[i].hour == h;
      }
    }
  }

  lemma {:induction false} GroupSpec(recs: seq<PerformanceRecord>)
    ensures GroupedBy(Group(recs), recs)
    decreases |recs|
  {
    if recs != [] {
      var p := recs[..|recs| - 1];
      GroupSpec(p);
      if HasHour(Group(p), recs[|recs| - 1].hour) {
        GroupStepKnown(recs, Group(p));
      } else {
        GroupStepNew(recs, Group(p));
      }
    }
  }

  // ---------------------------------------------------------------------
  // Averages and the stable descending sort
  // ---------------------------------------------------------------------

  function Averages(gs: seq<HourScores>): (av: seq<HourAverage>)
    requires forall i :: 0 <= i < |gs| ==> gs[i].scores != []
    ensures |av| == |gs|
    ensures forall i :: 0 <= i < |gs| ==>
              av[i] == HourAverage(gs[i].hour, gs[i].first, Mean(gs[i].scores))
  {
    seq(|gs|, i requires 0 <= i < |gs| => HourAverage(gs[i].hour, gs[i].first, Mean(gs[i].scores)))
  }

  predicate Precedes(x: HourAverage, y: HourAverage) {
    x.avg > y.avg || (x.avg == y.avg && x.first < y.first)
  }

  predicate Ranked(s: seq<HourAverage>) {
    forall i, j :: 0 <= i < j < |s| ==> Precedes(s[i], s[j])
  }

  /** Places `x` after every element whose average is at least its own. */
  function Insert(s: seq<HourAverage>, x: HourAverage): (r: seq<HourAverage>)
    ensures multiset(r) == multiset(s) + multiset{x}
  {
    if s == [] then [x]
    else if s[0].avg >= x.avg then
      assert s == [s[0]] + s[1..];
      [s[0]] + Insert(s[1..], x)
    else [x] + s
  }

  /** `sort(key=avg, reverse=True)`: stable, so an element that comes
      later in the input goes after every element with the same average. */
  function SortDesc(xs: seq<HourAverage>): (r: seq<HourAverage>)
    ensures multiset(r) == multiset(xs)
    decreases |xs|
  {
    if xs == [] then []
    else
      assert xs == xs[..|xs| - 1] + [xs[|xs| - 1]];
      Insert(SortDesc(xs[..|xs| - 1]), xs[|xs| - 1])
  }

  lemma {:induction false} InsertRanked(s: seq<HourAverage>, x: HourAverage)
    requires Ranked(s)
    requires forall i :: 0 <= i < |s| ==> s[i].first < x.first
    ensures Ranked(Insert(s, x))
    decreases |s|
  {
    if s != [] && s[0].avg >= x.avg {
      InsertRanked(s[1..], x);
      var t := Insert(s[1..], x);
      forall y | y in t
        ensures Precedes(s[0], y)
      {
        assert y in multiset(t);
        if y != x {
          assert y in s[1..];
        }
      }
      assert Insert(s, x) == [s[0]] + t;
    }
  }

  /** Sorting an input listed in first-seen order ranks by mean and then
      by first appearance. */
  lemma {:induction false} SortDescRanked(xs: seq<HourAverage>)
    requires forall i, j :: 0 <= i < j < |xs| ==> xs[i].first < xs[j].first
    ensures Ranked(SortDesc(xs))
    decreases |xs|
  {
    if xs != [] {
      var p := xs[..|xs| - 1];
      var x := xs[|xs| - 1];
      SortDescRanked(p);
      var sp := SortDesc(p);
      forall i | 0 <= i < |sp|
        ensures sp[i].first < x.first
      {
        assert sp[i] in multiset(p);
      }
      InsertRanked(sp, x);
    }
  }

  // ---------------------------------------------------------------------
  // The ranking
  // ---------------------------------------------------------------------

  /** All hours of a non-empty history with their means, best first. */
  function RankHours(recs: seq<PerformanceRecord>): seq<HourAverage>
    requires recs != []
  {
    GroupSpec(recs);
    SortDesc(Averages(Group(recs)))
  }

  /** `analyze_best_learning_time`. */
  function BestLearningHours(recs: seq<PerformanceRecord>): (r: seq<int>)
    ensures recs == [] ==> r == []
    ensures |r| <= 3
  {
    if recs == [] then []
    else
      var sorted := RankHours(recs);
      HoursOf(sorted[..MinInt(3, |sorted|)])
  }

  function HoursOf(s: seq<HourAverage>): (r: seq<int>)
    ensures |r| == |s| && forall i :: 0 <= i < |s| ==> r[i] == s[i].hour
  {
    seq(|s|, i requires 0 <= i < |s| => s[i].hour)
  }

  /** An average entry that agrees with the history. */
  ghost predicate Describes(recs: seq<PerformanceRecord>, e: HourAverage) {
    Seen(recs, e.hour) && e.avg == AvgOf(recs, e.hour) && e.first == FirstIndex(recs, e.hour)
  }

  /** `sorted` is ranked, agrees with the history and lists every hour. */
  ghost predicate RankingOf(recs: seq<PerformanceRecord>, sorted: seq<HourAverage>) {
    && Ranked(sorted)
    && (forall i :: 0 <= i < |sorted| ==> Describes(recs, sorted[i]))
    && (forall h :: Seen(recs, h) ==> exists k :: 0 <= k < |sorted| && sorted[k].hour == h)
  }

  lemma SortedDescribes(recs: seq<PerformanceRecord>)
    requires recs != []
    ensures RankingOf(recs, RankHours(recs))
  {
    GroupSpec(recs);
    SortDescRanked(Averages(Group(recs)));
    SortedEntriesDescribe(recs);
    SortedListsSeen(recs);
  }

  /** Every entry of the ranking agrees with the history. */
  lemma SortedEntriesDescribe(recs: seq<PerformanceRecord>)
    requires recs != []
    ensures forall i :: 0 <= i < |RankHours(recs)| ==> Describes(recs, RankHours(recs)[i])
  {
    GroupSpec(recs);
    var av := Averages(Group(recs));
    var sorted := SortDesc(av);
    forall i | 0 <= i < |sorted|
      ensures Describes(recs, sorted[i])
    {
      assert sorted[i] in multiset(av);
    }
  }

  /** Every hour of the history has an entry in the ranking. */
  lemma SortedListsSeen(recs: seq<PerformanceRecord>)
    requires recs != []
    ensures forall h :: Seen(recs, h) ==> exists k :: 0 <= k < |RankHours(recs)| && RankHours(recs)[k].hour == h
  {
    var gs := Group(recs);
    GroupSpec(recs);
    var av := Averages(gs);
    var sorted := RankHours(recs);
    assert multiset(sorted) == multiset(av);
    forall h | Seen(recs, h)
      ensures exists k :: 0 <= k < |sorted| && sorted[k].hour == h
    {
      var i :| 0 <= i < |gs| && gs[i].hour == h;
      assert av[i] in multiset(sorted);
      var k :| 0 <= k < |sorted| && sorted[k] == av[i];
      assert sorted[k].hour == h;
    }
  }

  /** `r` holds at most three distinct hours of the history, each ranked
      before the next, and leaves out an hour only when three hours rank
      before it. */
  ghost predicate TopRanked(recs: seq<PerformanceRecord>, r: seq<int>) {
    && |r| <= 3
    && Distinct(r)
    && (forall i :: 0 <= i < |r| ==> Seen(recs, r[i]))
    && (forall i, j :: 0 <= i < j < |r| ==> RanksBefore(recs, r[i], r[j]))
    && (forall h :: Seen(recs, h) && h !in r ==>
          |r| == 3 && forall i :: 0 <= i < |r| ==> RanksBefore(recs, r[i], h))
  }

  /** The ranking returns the best hours of the history in rank order. */
  lemma BestLearningHoursSpec(recs: seq<PerformanceRecord>)
    ensures TopRanked(recs, BestLearningHours(recs))
  {
    if recs != [] {
      SortedDescribes(recs);
      TopHours(recs, RankHours(recs), BestLearningHours(recs));
    }
  }

  /** The first hours of a ranked list of entries that agree with the
      history. */
  lemma TopHours(recs: seq<PerformanceRecord>, sorted: seq<HourAverage>, r: seq<int>)
    requires RankingOf(recs, sorted)
    requires |r| == MinInt(3, |sorted|)
    requires forall i :: 0 <= i < |r| ==> r[i] == sorted[i].hour
    ensures TopRanked(recs, r)
  {
    forall i, j | 0 <= i < j < |r|
      ensures RanksBefore(recs, r[i], r[j]) && r[i] != r[j]
    {
      assert Precedes(sorted[i], sorted[j]);
    }
    forall h | Seen(recs, h) && h !in r
      ensures |r| == 3 && forall i :: 0 <= i < |r| ==> RanksBefore(recs, r[i], h)
    {
      var k :| 0 <= k < |sorted| && sorted[k].hour == h;
      forall i | 0 <= i < |r|
        ensures RanksBefore(recs, r[i], h)
      {
        assert Precedes(sorted[i], sorted[k]);
      }
    }
  }

  /** Hours 9, 14 and 20 scoring 0.9, 0.7 and 0.8 rank as [9, 20, 14]. */
  lemma BestHoursExample(recs: seq<PerformanceRecord>)
    requires recs == [PerformanceRecord(9, 0.9), PerformanceRecord(14, 0.7), PerformanceRecord(20, 0.8)]
    ensures BestLearningHours(recs) == [9, 20, 14]
  {
    var x, y, z := HourAverage(9, 0, 0.9), HourAverage(14, 1, 0.7), HourAverage(20, 2, 0.8);
    ExampleRanking(recs, x, y, z);
    TopOfThree(RankHours(recs), x, y, z);
  }

  lemma TopOfThree(sorted: seq<HourAverage>, x: HourAverage, y: HourAverage, z: HourAverage)
    requires x.hour == 9 && y.hour == 14 && z.hour == 20
    requires sorted == [x, z, y]
    ensures HoursOf(sorted[..MinInt(3, |sorted|)]) == [9, 20, 14]
  {
    assert sorted[..MinInt(3, |sorted|)] == sorted;
  }

  lemma ExampleRanking(recs: seq<PerformanceRecord>, x: HourAverage, y: HourAverage, z: HourAverage)
    requires recs == [PerformanceRecord(9, 0.9), PerformanceRecord(14, 0.7), PerformanceRecord(20, 0.8)]
    requires x == HourAverage(9, 0, 0.9) && y == HourAverage(14, 1, 0.7) && z == HourAverage(20, 2, 0.8)
    ensures RankHours(recs) == [x, z, y]
  {
    ExampleGroup(recs[0], recs[1], recs[2]);
    assert recs == [recs[0], recs[1], recs[2]];
    var gs := [HourScores(9, 0, [0.9]), HourScores(14, 1, [0.7]), HourScores(20, 2, [0.8])];
    MeanSingle(0.9);
    MeanSingle(0.7);
    MeanSingle(0.8);
    assert Averages(gs) == [x, y, z];
    ExampleSort(x, y, z);
  }

  lemma MeanSingle(x: real)
    ensures Mean([x]) == x
  {
    assert Sum([x]) == x + Sum([x][1..]);
    assert [x][1..] == [];
  }

  lemma ExampleGroup(a: PerformanceRecord, b: PerformanceRecord, c: PerformanceRecord)
    requires a == PerformanceRecord(9, 0.9) && b == PerformanceRecord(14, 0.7)
    requires c == PerformanceRecord(20, 0.8)
    ensures Group([a, b, c]) ==
              [HourScores(9, 0, [0.9]), HourScores(14, 1, [0.7]), HourScores(20, 2, [0.8])]
  {
    assert [a, b, c][..2] == [a, b];
    assert [a, b][..1] == [a];
    assert [a][..0] == [];
    assert Group([a]) == [HourScores(9, 0, [0.9])];
    var g2 := Group([a, b]);
    assert !HasHour(Group([a]), 14);
    assert g2 == [HourScores(9, 0, [0.9]), HourScores(14, 1, [0.7])];
    assert !HasHour(g2, 20);
  }

  lemma ExampleSort(x: HourAverage, y: HourAverage, z: HourAverage)
    requires x.avg == 0.9 && y.avg == 0.7 && z.avg == 0.8
    ensures SortDesc([x, y, z]) == [x, z, y]
  {
    assert [x, y, z][..2] == [x, y];
    assert [x, y][..1] == [x];
    assert [x][..0] == [];
    assert SortDesc([x]) == [x];
    assert Insert([x], y) == [x] + Insert([], y);
    assert SortDesc([x, y]) == [x, y];
    assert [x, y][1..] == [y];
    assert Insert([y], z) == [z, y];
    assert Insert([x, y], z) == [x] + Insert([y], z);
  }
}
