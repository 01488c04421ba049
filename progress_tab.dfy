/** The progress screen's figures: the number of quizzes, the average
    accuracy, the roadmap percentage and the per-quiz chart series.  Numbers
    are exact rationals; a division by a zero total, which JavaScript turns
    into an infinity or NaN, is the single value `NotFinite`. */
module ProgressTab {
  import opened JsText
  import opened MentorContext
  import RoadmapTab

  /** A JavaScript number as far as these figures need it. */
  datatype Num = Finite(x: real) | NotFinite

  /** `Math.round`: the nearest integer, halves rounded up. */
  function Round(x: real): (n: int)
    ensures n as real - 0.5 <= x < n as real + 0.5
  {
    (x + 0.5).Floor
  }

  /** Rounding keeps a value within integer bounds it already lies in. */
  lemma RoundWithin(x: real, lo: int, hi: int)
    requires lo as real <= x <= hi as real
    ensures lo <= Round(x) <= hi
  {
  }

  function RoundNum(v: Num): Num {
    match v
    case Finite(x) => Finite(Round(x) as real)
    case NotFinite => NotFinite
  }

  /** `(r.score / r.total) * 100` */
  function Accuracy(r: QuizResult): (v: Num)
    ensures v.NotFinite? <==> r.total == 0
    ensures 0 <= r.score <= r.total && r.total > 0 ==> v.Finite? && 0.0 <= v.x <= 100.0
  {
    if r.total == 0 then NotFinite
    else Finite(r.score as real / r.total as real * 100.0)
  }

  function Add(a: Num, b: Num): Num {
    if a.Finite? && b.Finite? then Finite(a.x + b.x) else NotFinite
  }

  /** `quizResults.reduce((sum, r) => sum + accuracy(r), 0)` */
  function SumAccuracy(results: seq<QuizResult>): (v: Num)
    ensures results == [] ==> v == Finite(0.0)
    ensures results != [] && results[|results| - 1].total == 0 ==> v == NotFinite
  {
    if results == [] then Finite(0.0)
    else Add(SumAccuracy(results[..|results| - 1]), Accuracy(results[|results| - 1]))
  }

  predicate WellFormed(r: QuizResult) {
    0 <= r.score <= r.total && r.total > 0
  }

  /** With well-formed results the sum is finite and at most 100 per result. */
  lemma {:induction false} SumAccuracyBounds(results: seq<QuizResult>)
    requires forall k :: 0 <= k < |results| ==> WellFormed(results[k])
    ensures SumAccuracy(results).Finite?
    ensures 0.0 <= SumAccuracy(results).x <= 100.0 * |results| as real
  {
    if results != [] {
      var init := results[..|results| - 1];
      assert forall k :: 0 <= k < |init| ==> init[k] == results[k];
      SumAccuracyBounds(init);
      var a := Accuracy(results[|results| - 1]);
      assert a.Finite? && 0.0 <= a.x <= 100.0;
    }
  }

  /** `quizResults.length` */
  function TotalQuizzes(results: seq<QuizResult>): (n: nat)
    ensures n == |results|
  {
    |results|
  }

  /** `avgAccuracy` */
  function AvgAccuracy(results: seq<QuizResult>): (v: Num)
    ensures results == [] ==> v == Finite(0.0)
  {
    var n := TotalQuizzes(results);
    if n > 0 then
      match SumAccuracy(results)
      case Finite(s) => RoundNum(Finite(s / n as real))
      case NotFinite => NotFinite
    else Finite(0.0)
  }

  /** Well-formed results give a whole percentage between 0 and 100. */
  lemma AvgAccuracyInRange(results: seq<QuizResult>)
    requires forall k :: 0 <= k < |results| ==> WellFormed(results[k])
    ensures var v := AvgAccuracy(results);
      v.Finite? && 0.0 <= v.x <= 100.0 && v.x == v.x.Floor as real
  {
    if results != [] {
      SumAccuracyBounds(results);
      var n := |results| as real;
      var s := SumAccuracy(results).x;
      assert s / n <= 100.0 by {
        assert s <= 100.0 * n;
      }
      RoundWithin(s / n, 0, 100);
    }
  }

  /** A result with a zero total makes the average not finite. */
  lemma {:induction false} ZeroTotalNotFinite(results: seq<QuizResult>, k: nat)
    requires k < |results| && results[k].total == 0
    ensures AvgAccuracy(results) == NotFinite
  {
    SumNotFinite(results, k);
  }

  lemma {:induction false} SumNotFinite(results: seq<QuizResult>, k: nat)
    requires k < |results| && results[k].total == 0
    ensures SumAccuracy(results) == NotFinite
  {
    var init := results[..|results| - 1];
    if k < |results| - 1 {
      assert init[k] == results[k];
      SumNotFinite(init, k);
    }
  }

  /** `roadmapProgress`: the rounded percentage of completed milestones. */
  function RoadmapProgress(roadmap: seq<RoadmapMilestone>): (p: int)
    ensures roadmap == [] ==> p == 0
    ensures 0 <= p <= 100
  {
    var n := |roadmap|;
    if n > 0 then
      var c := RoadmapTab.CompletedCount(roadmap);
      var x := c as real / n as real * 100.0;
      RoundWithin(x, 0, 100);
      Round(x)
    else 0
  }

  /** A non-empty roadmap with every milestone completed is 100%; none
      completed is 0%. */
  lemma RoadmapProgressExtremes(roadmap: seq<RoadmapMilestone>)
    ensures roadmap != [] && (forall i :: 0 <= i < |roadmap| ==> roadmap[i].completed) ==> RoadmapProgress(roadmap) == 100
    ensures (forall i :: 0 <= i < |roadmap| ==> !roadmap[i].completed) ==> RoadmapProgress(roadmap) == 0
  {
    RoadmapTab.CompletedCountExtremes(roadmap);
    if roadmap != [] && forall i :: 0 <= i < |roadmap| ==> roadmap[i].completed {
      var n := |roadmap| as real;
      var c := RoadmapTab.CompletedCount(roadmap) as real;
      assert c / n * 100.0 == 100.0;
    }
  }

  /** One bar of the chart. */
  datatype Bar = Bar(name: string, score: Num)

  /** `chartData`: one bar per result, in order, named `Q1`, `Q2`, ... */
  function ChartData(results: seq<QuizResult>): (bars: seq<Bar>)
    ensures |bars| == |results|
    ensures forall i :: 0 <= i < |bars| ==>
      bars[i].name == "Q" + NatToString(i + 1) && bars[i].score == RoundNum(Accuracy(results[i]))
  {
    seq(|results|, i requires 0 <= i < |results| => Bar("Q" + NatToString(i + 1), RoundNum(Accuracy(results[i]))))
  }

  /** Bar names are distinct. */
  lemma ChartNamesDistinct(results: seq<QuizResult>, i: nat, j: nat)
    requires i < j < |results|
    ensures ChartData(results)[i].name != ChartData(results)[j].name
  {
    NatToStringInjective(i + 1, j + 1);
    var a, b := NatToString(i + 1), NatToString(j + 1);
    assert ("Q" + a)[1..] == a && ("Q" + b)[1..] == b;
  }
}
