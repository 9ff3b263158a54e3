/** Risk tiers: `pd.cut` of the health score into three right-closed bins
    (streamlit_app.py:45-49). A value outside every bin gets no label. */
module RiskTiers {
  import opened Wrappers

  datatype RiskLevel = HighRisk | MediumRisk | Healthy

  /** Bin edges and labels as the dashboard passes them to `pd.cut`. */
  const Edges: seq<real> := [-0.01, 0.3, 0.7, 1.0]
  const Labels: seq<RiskLevel> := [HighRisk, MediumRisk, Healthy]

  predicate StrictlyIncreasing(edges: seq<real>) {
    forall i, j :: 0 <= i < j < |edges| ==> edges[i] < edges[j]
  }

  /** `pd.cut` with `right=True`: the index `i` of the bin
      `(edges[i], edges[i + 1]]` holding `x`, searching from bin `from`. */
  function BinIndexFrom(x: real, edges: seq<real>, from: nat): (r: Option<nat>)
    requires StrictlyIncreasing(edges) && from < |edges|
    ensures r.Some? <==> edges[from] < x <= edges[|edges| - 1]
    ensures r.Some? ==> from <= r.value < |edges| - 1 && edges[r.value] < x <= edges[r.value + 1]
    decreases |edges| - from
  {
    if from + 1 == |edges| then None
    else if edges[from] < x <= edges[from + 1] then Some(from)
    else if x <= edges[from] then None
    else BinIndexFrom(x, edges, from + 1)
  }

  /** The bin of `x`, or `None` when `x` is at or below the first edge or
      above the last: such values are NaN in the `Risk_Level` column. */
  function BinIndex(x: real, edges: seq<real>): (r: Option<nat>)
    requires StrictlyIncreasing(edges) && |edges| > 0
    ensures r.Some? <==> edges[0] < x <= edges[|edges| - 1]
    ensures r.Some? ==> r.value < |edges| - 1 && edges[r.value] < x <= edges[r.value + 1]
  {
    BinIndexFrom(x, edges, 0)
  }

  /** Bins are ordered: a larger value never lands in an earlier bin. */
  lemma BinIndexMonotone(x: real, y: real, edges: seq<real>)
    requires StrictlyIncreasing(edges) && |edges| > 0 && x <= y
    requires BinIndex(x, edges).Some? && BinIndex(y, edges).Some?
    ensures BinIndex(x, edges).value <= BinIndex(y, edges).value
  {
  }

  /** The tier the dashboard assigns to a health score `s`. */
  function RiskLevelOf(s: real): (r: Option<RiskLevel>)
    ensures r == Some(HighRisk) <==> -0.01 < s <= 0.3
    ensures r == Some(MediumRisk) <==> 0.3 < s <= 0.7
    ensures r == Some(Healthy) <==> 0.7 < s <= 1.0
    ensures r == None <==> s <= -0.01 || 1.0 < s
  {
    match BinIndex(s, Edges)
    case None => None
    case Some(i) => Some(Labels[i])
  }

  /** Position of a tier from worst to best. */
  function Severity(level: RiskLevel): nat {
    match level
    case HighRisk => 0
    case MediumRisk => 1
    case Healthy => 2
  }

  /** Tiers are monotone in the score: a higher score never gets a worse tier. */
  lemma RiskLevelMonotone(s: real, t: real)
    requires s <= t && RiskLevelOf(s).Some? && RiskLevelOf(t).Some?
    ensures Severity(RiskLevelOf(s).value) <= Severity(RiskLevelOf(t).value)
  {
    BinIndexMonotone(s, t, Edges);
  }

  /** Every score in [0, 1] gets a tier. */
  lemma UnitScoresHaveTier(s: real)
    requires 0.0 <= s <= 1.0
    ensures RiskLevelOf(s).Some?
  {
  }
}
