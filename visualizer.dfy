/**
 * The two chart series derived from one analysis result: the five-axis
 * radar of the acceptance conditions and the two-bar acceptance/rejection
 * balance, with the bar colouring rule.
 */
module Visualizer {
  import opened Types

  /** Radar axes in order: narrator integrity, narrator memory, text soundness, agreement with the Quran, absence of anomaly. */
  const RadarSubjects: seq<string> := ["عدالة الرواة", "ضبط الصدر", "سلامة المتن", "موافقة القرآن", "انتفاء الشذوذ"]

  /** The step threshold of the anomaly axis. */
  const AnomalyThreshold: real := 0.5

  /** The radar series: every axis on a 0-100 scale, in the fixed order of `RadarSubjects`. */
  function RadarData(data: AnalysisResult): (r: seq<ChartData>)
    ensures |r| == |RadarSubjects| == 5
    ensures forall i :: 0 <= i < |r| ==> r[i].subject == RadarSubjects[i] && r[i].fullMark == 100.0
  {
    [ ChartData(RadarSubjects[0], data.isnadScore * 100.0, 100.0),
      ChartData(RadarSubjects[1], data.isnadScore * 90.0, 100.0),
      ChartData(RadarSubjects[2], data.matnScore * 100.0, 100.0),
      ChartData(RadarSubjects[3], data.quranicConsistency * 100.0, 100.0),
      ChartData(RadarSubjects[4], (1.0 - (if data.quranicConsistency < AnomalyThreshold then 1.0 else 0.0)) * 100.0, 100.0) ]
  }

  /** The memory axis is the integrity axis discounted to nine tenths, so never above it for a non-negative chain score. */
  lemma MemoryAxisDiscounted(data: AnalysisResult)
    ensures RadarData(data)[1].A == RadarData(data)[0].A * 9.0 / 10.0
    ensures data.isnadScore >= 0.0 ==> RadarData(data)[1].A <= RadarData(data)[0].A
    ensures data.isnadScore < 0.0 ==> RadarData(data)[1].A > RadarData(data)[0].A
  {
  }

  /** The anomaly axis is a step: 100 exactly when the Quran score reaches the threshold, 0 otherwise. */
  lemma AnomalyAxisStep(data: AnalysisResult)
    ensures RadarData(data)[4].A == 100.0 <==> data.quranicConsistency >= AnomalyThreshold
    ensures RadarData(data)[4].A == 0.0 <==> data.quranicConsistency < AnomalyThreshold
  {
  }

  /** The axes are the scores scaled to percent, each depending on one score only. */
  lemma RadarAxesScaleScores(data: AnalysisResult)
    ensures RadarData(data)[0].A / 100.0 == data.isnadScore
    ensures RadarData(data)[2].A / 100.0 == data.matnScore
    ensures RadarData(data)[3].A / 100.0 == data.quranicConsistency
  {
  }

  /** With the three unit scores in their documented range, every radar value lies in [0, 100]. */
  lemma RadarBounded(data: AnalysisResult)
    requires UnitScore(data.isnadScore) && UnitScore(data.matnScore) && UnitScore(data.quranicConsistency)
    ensures forall i :: 0 <= i < |RadarData(data)| ==> PercentScore(RadarData(data)[i].A)
  {
  }

  /** Boundary values: a perfect chain gives 100 and 90, and a Quran score of exactly one half clears the step. */
  lemma RadarAtUpperBoundary(data: AnalysisResult)
    requires data.isnadScore == 1.0 && data.quranicConsistency == 0.5
    ensures RadarData(data)[0].A == 100.0 && RadarData(data)[1].A == 90.0
    ensures RadarData(data)[4].A == 100.0
  {
  }

  /** Just below one half the anomaly axis drops to 0. */
  lemma RadarBelowThreshold(data: AnalysisResult)
    requires data.quranicConsistency == 0.499999
    ensures RadarData(data)[4].A == 0.0
  {
  }

  /** A bar of the balance chart. */
  datatype BarEntry = BarEntry(name: string, value: real)

  /** Bars in order: likelihood of authenticity, ratio of rejection. */
  const BarNames: seq<string> := ["احتمالية الصحة", "نسبة النكارة"]

  /** The balance series: two bars, in the fixed order of `BarNames`. */
  function BarData(data: AnalysisResult): (r: seq<BarEntry>)
    ensures |r| == |BarNames| == 2
    ensures forall i :: 0 <= i < |r| ==> r[i].name == BarNames[i]
  {
    [ BarEntry(BarNames[0], data.confidenceScore),
      BarEntry(BarNames[1], (1.0 - data.quranicConsistency) * 100.0) ]
  }

  /** The first bar passes the confidence score through; the second is the Quran radar axis's complement to 100. */
  lemma BarsAgainstRadar(data: AnalysisResult)
    ensures BarData(data)[0].value == data.confidenceScore
    ensures BarData(data)[1].value + RadarData(data)[3].A == 100.0
  {
  }

  /**
   * The two bars come from different fields: each is unaffected by the other's
   * source, so they do not in general sum to 100.
   */
  lemma BarsIndependent(d1: AnalysisResult, d2: AnalysisResult)
    ensures d1.confidenceScore == d2.confidenceScore ==> BarData(d1)[0] == BarData(d2)[0]
    ensures d1.quranicConsistency == d2.quranicConsistency ==> BarData(d1)[1] == BarData(d2)[1]
    ensures d1.quranicConsistency == 0.0 && d1.confidenceScore == 100.0 ==>
              BarData(d1)[0].value + BarData(d1)[1].value != 100.0
  {
  }

  /** With the documented ranges, both bars lie in [0, 100]. */
  lemma BarsBounded(data: AnalysisResult)
    requires PercentScore(data.confidenceScore) && UnitScore(data.quranicConsistency)
    ensures forall i :: 0 <= i < |BarData(data)| ==> PercentScore(BarData(data)[i].value)
  {
  }

  const Green: string := "#059669"
  const Red: string := "#e11d48"
  const Slate: string := "#64748b"

  /** Fill of the bar at `index`: the first is green above 50 and red otherwise; every other bar is slate. */
  function BarFill(index: nat, entry: BarEntry): (fill: string)
    ensures fill in {Green, Red, Slate}
  {
    if index == 0 then (if entry.value > 50.0 then Green else Red) else Slate
  }

  /** Against the balance series: the first bar is green exactly when confidence exceeds 50, the second is always slate. */
  lemma BarColours(data: AnalysisResult)
    ensures BarFill(0, BarData(data)[0]) == Green <==> data.confidenceScore > 50.0
    ensures BarFill(0, BarData(data)[0]) == Red <==> data.confidenceScore <= 50.0
    ensures BarFill(1, BarData(data)[1]) == Slate
  {
  }
}
