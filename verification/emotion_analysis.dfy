/**
 * Aggregated emotion data of an assessment: the data points, and for each emotion that
 * occurs, the share of data points showing it, in percent.
 */
module EmotionAnalysis {
  import opened Wrappers
  import opened Histogram

  datatype Emotion = Happy | Neutral | Sad | Distress | Anger

  datatype DataPoint = DataPoint(
    assessmentId: string,
    timestamp: int,
    emotion: Emotion,
    confidence: real,
    screenshotId: Option<string>)

  datatype EmotionStat = EmotionStat(emotion: Emotion, percentage: real)

  datatype EmotionData = EmotionData(dataPoints: seq<DataPoint>, stats: seq<EmotionStat>)

  function Emotions(points: seq<DataPoint>): (es: seq<Emotion>)
    ensures |es| == |points| && forall i :: 0 <= i < |points| ==> es[i] == points[i].emotion
  {
    if points == [] then [] else Emotions(points[..|points| - 1]) + [points[|points| - 1].emotion]
  }

  /** The counting reduce: one pass over the points, bumping the entry of each point's emotion. */
  method CountEmotions(points: seq<DataPoint>) returns (counts: map<Emotion, nat>, order: seq<Emotion>)
    ensures counts == Counts(Emotions(points))
    ensures order == Keys(Emotions(points))
  {
    ghost var labels := Emotions(points);
    counts, order := map[], [];
    assert labels[..0] == [];
    for i := 0 to |points|
      invariant counts == Counts(labels[..i])
      invariant order == Keys(labels[..i])
    {
      var e := points[i].emotion;
      assert labels[i] == e;
      CountStep(labels, i, counts);
      KeyStep(labels, i, order);
      if e !in counts {
        order := order + [e];
      }
      counts := Bump(counts, e);
    }
    assert labels[..|points|] == labels;
  }

  /** (count / totalPoints) * 100, or 0 when there are no points. */
  function Percentage(count: nat, total: nat): real
  {
    if total > 0 then (count as real / total as real) * 100.0 else 0.0
  }

  /** Object.entries(counts).map(...): one stat per key, in key order. */
  function StatsFrom(order: seq<Emotion>, counts: map<Emotion, nat>, total: nat): (stats: seq<EmotionStat>)
    requires forall i :: 0 <= i < |order| ==> order[i] in counts
    ensures |stats| == |order| && forall i :: 0 <= i < |order| ==> stats[i].emotion == order[i]
  {
    if order == [] then []
    else
      var last := order[|order| - 1];
      StatsFrom(order[..|order| - 1], counts, total) + [EmotionStat(last, Percentage(counts[last], total))]
  }

  /** The stats the service computes for a list of data points. */
  function EmotionStats(points: seq<DataPoint>): seq<EmotionStat>
  {
    var labels := Emotions(points);
    KeysSpec(labels);
    StatsFrom(Keys(labels), Counts(labels), |points|)
  }

  /** The message getAssessmentEmotionData throws when the query fails. */
  const FetchError := "Failed to fetch emotion data"

  /**
   * getAssessmentEmotionData: `find` is the query for the assessment's data points, sorted by
   * timestamp, and may fail; otherwise the points come back unchanged with their stats.
   */
  method GetAssessmentEmotionData(assessmentId: string, find: string -> Result<seq<DataPoint>>)
    returns (r: Result<EmotionData>)
    ensures find(assessmentId).Failure? ==> r == Failure(FetchError)
    ensures find(assessmentId).Success? ==>
      r.Success? && r.value.dataPoints == find(assessmentId).value && r.value.stats == EmotionStats(r.value.dataPoints)
  {
    var found := find(assessmentId);
    if found.Failure? {
      return Failure(FetchError);
    }
    var points := found.value;
    var counts, order := CountEmotions(points);
    KeysSpec(Emotions(points));
    var totalPoints := |points|;
    r := Success(EmotionData(points, StatsFrom(order, counts, totalPoints)));
  }

  /** Sum of the percentages of a list of stats. */
  function TotalPercentage(stats: seq<EmotionStat>): real
  {
    if stats == [] then 0.0 else TotalPercentage(stats[..|stats| - 1]) + stats[|stats| - 1].percentage
  }

  /**
   * The stats hold exactly the emotions that occur, once each in order of first occurrence,
   * and the percentage of each is its number of points times 100 over the number of points.
   */
  lemma {:induction false} StatsSpec(points: seq<DataPoint>)
    ensures var stats := EmotionStats(points);
      && (forall i :: 0 <= i < |stats| ==> stats[i].emotion in Emotions(points))
      && (forall e :: e in Emotions(points) ==> exists i :: 0 <= i < |stats| && stats[i].emotion == e)
      && (forall i, j :: 0 <= i < j < |stats| ==> stats[i].emotion != stats[j].emotion)
      && (forall i :: 0 <= i < |stats| ==>
            stats[i].percentage == Percentage(Count(Emotions(points), stats[i].emotion), |points|))
  {
    var labels := Emotions(points);
    var ks := Keys(labels);
    KeysSpec(labels);
    var stats := EmotionStats(points);
    forall e | e in labels ensures exists i :: 0 <= i < |stats| && stats[i].emotion == e {
      var i :| 0 <= i < |ks| && ks[i] == e;
      assert stats[i].emotion == e;
    }
    StatsPercentages(ks, labels, |points|);
  }

  lemma {:induction false} StatsPercentages(ks: seq<Emotion>, labels: seq<Emotion>, total: nat)
    requires forall i :: 0 <= i < |ks| ==> ks[i] in labels
    ensures forall i :: 0 <= i < |ks| ==>
      StatsFrom(ks, Counts(labels), total)[i].percentage == Percentage(Count(labels, ks[i]), total)
    decreases |ks|
  {
    if ks != [] {
      StatsPercentages(ks[..|ks| - 1], labels, total);
    }
  }

  lemma ScaledSum(a: real, c: real, t: real)
    requires t > 0.0
    ensures (a / t) * 100.0 + (c / t) * 100.0 == ((a + c) / t) * 100.0
  {
  }

  lemma {:induction false} TotalPercentageOfStats(ks: seq<Emotion>, labels: seq<Emotion>, total: nat)
    requires total > 0
    requires forall i :: 0 <= i < |ks| ==> ks[i] in labels
    ensures TotalPercentage(StatsFrom(ks, Counts(labels), total))
         == (SumCounts(ks, labels) as real / total as real) * 100.0
    decreases |ks|
  {
    if ks != [] {
      var init := ks[..|ks| - 1];
      var last := ks[|ks| - 1];
      var stats := StatsFrom(ks, Counts(labels), total);
      assert stats[..|stats| - 1] == StatsFrom(init, Counts(labels), total);
      var a, c := SumCounts(init, labels), Count(labels, last);
      assert stats[|stats| - 1].percentage == (c as real / total as real) * 100.0;
      assert SumCounts(ks, labels) == a + c;
      TotalPercentageOfStats(init, labels, total);
      ScaledSum(a as real, c as real, total as real);
    }
  }

  /** With at least one data point the percentages add up to exactly 100. */
  lemma PercentagesSumTo100(points: seq<DataPoint>)
    requires |points| > 0
    ensures TotalPercentage(EmotionStats(points)) == 100.0
  {
    var labels := Emotions(points);
    var t := |points| as real;
    KeysSpec(labels);
    TotalPercentageOfStats(Keys(labels), labels, |points|);
    SumOfCounts(labels);
    assert SumCounts(Keys(labels), labels) as real == t;
    RatioInRange(t, t);
  }

  lemma RatioInRange(c: real, t: real)
    requires 0.0 < c <= t
    ensures 0.0 < (c / t) * 100.0 <= 100.0
    ensures c == t ==> (c / t) * 100.0 == 100.0
  {
    assert (c / t) * t == c;
  }

  /** With at least one data point every percentage lies in (0, 100]: no zero entries. */
  lemma PercentagesInRange(points: seq<DataPoint>)
    requires |points| > 0
    ensures forall i :: 0 <= i < |EmotionStats(points)| ==>
      0.0 < EmotionStats(points)[i].percentage <= 100.0
  {
    var labels := Emotions(points);
    var stats := EmotionStats(points);
    StatsSpec(points);
    forall i | 0 <= i < |stats| ensures 0.0 < stats[i].percentage <= 100.0 {
      var e := stats[i].emotion;
      CountPositive(labels, e);
      RatioInRange(Count(labels, e) as real, |points| as real);
    }
  }

  /** No data points: no stats. */
  lemma NoPointsNoStats(points: seq<DataPoint>)
    requires points == []
    ensures EmotionStats(points) == []
  {
  }
}
