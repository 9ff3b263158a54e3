/** `predict_health_scores` (streamlit_app.py:28-50) and the top-five
    selection the dashboard makes from its result (streamlit_app.py:157).
    The classifier is a parameter: any function from a feature vector to a
    positive-class probability. */
module HealthScores {
  import opened Wrappers
  import opened Frame
  import opened RiskTiers
  import Sorting

  type Prob = p: real | 0.0 <= p <= 1.0

  /** The trained model's `predict_proba(...)[:, 1]` for one row's features. */
  type Classifier = seq<(string, Value)> -> Prob

  /** A customer's health is the complement of its churn probability, so it
      lies in [0, 1] and the two always add up to 1. */
  function HealthScore(p: Prob): (h: real)
    ensures 0.0 <= h <= 1.0
    ensures h + p == 1.0
  {
    1.0 - p
  }

  /** A row with its `health_score` column, before ranking. */
  datatype Scored = Scored(cells: Row, healthScore: real)

  /** A row of the returned frame: the input cells plus `health_score`,
      `Rank` and `Risk_Level` (NaN when the score falls in no bin). */
  datatype RankedRow = RankedRow(cells: Row, healthScore: real, rank: nat, riskLevel: Option<RiskLevel>)

  datatype Results = Results(columns: seq<string>, rows: seq<RankedRow>)

  function Health(s: Scored): real {
    s.healthScore
  }

  function RankedHealth(r: RankedRow): real {
    r.healthScore
  }

  /** streamlit_app.py:37-41. Every row keeps its cells and gets the
      complement of the probability the classifier gives its feature vector. */
  function ScoreRows(f: Frame, classify: Classifier): (scored: seq<Scored>)
    requires WellFormed(f)
    ensures |scored| == |f.rows|
    ensures forall i :: 0 <= i < |scored| ==> scored[i].cells == f.rows[i]
    ensures forall i :: 0 <= i < |scored| ==>
      scored[i].healthScore + classify(FeatureVector(f.columns, f.rows[i])) == 1.0
    ensures forall i :: 0 <= i < |scored| ==> 0.0 <= scored[i].healthScore <= 1.0
  {
    seq(|f.rows|, i requires 0 <= i < |f.rows| =>
      Scored(f.rows[i], HealthScore(classify(FeatureVector(f.columns, f.rows[i])))))
  }

  /** streamlit_app.py:44-49. Row `i` of the sorted frame gets rank `i + 1`
      and the tier of its score; cells and score are carried over. */
  function AssignRanks(sorted: seq<Scored>): (ranked: seq<RankedRow>)
    ensures |ranked| == |sorted|
    ensures forall i :: 0 <= i < |ranked| ==> ranked[i].rank == i + 1
    ensures forall i :: 0 <= i < |ranked| ==>
      ranked[i].cells == sorted[i].cells && ranked[i].healthScore == sorted[i].healthScore
    ensures forall i :: 0 <= i < |ranked| ==> ranked[i].riskLevel == RiskLevelOf(sorted[i].healthScore)
  {
    seq(|sorted|, i requires 0 <= i < |sorted| =>
      RankedRow(sorted[i].cells, sorted[i].healthScore, i + 1, RiskLevelOf(sorted[i].healthScore)))
  }

  /** Forgets the two derived columns again. */
  function Unrank(ranked: seq<RankedRow>): (scored: seq<Scored>)
    ensures |scored| == |ranked|
    ensures forall i :: 0 <= i < |ranked| ==>
      scored[i].cells == ranked[i].cells && scored[i].healthScore == ranked[i].healthScore
  {
    seq(|ranked|, i requires 0 <= i < |ranked| => Scored(ranked[i].cells, ranked[i].healthScore))
  }

  /** Ranking adds columns and loses nothing: removing them gives back the
      sorted rows. */
  lemma UnrankAssignRanks(sorted: seq<Scored>)
    ensures Unrank(AssignRanks(sorted)) == sorted
  {
  }

  /** streamlit_app.py:43-49. A sorted permutation of the scored rows,
      ranked by position and tiered by score. */
  function RankByHealth(scored: seq<Scored>): (ranked: seq<RankedRow>)
    ensures multiset(Unrank(ranked)) == multiset(scored)
    ensures forall i, j :: 0 <= i < j < |ranked| ==> ranked[i].healthScore <= ranked[j].healthScore
    ensures forall i :: 0 <= i < |ranked| ==> ranked[i].rank == i + 1
    ensures forall i :: 0 <= i < |ranked| ==> ranked[i].riskLevel == RiskLevelOf(ranked[i].healthScore)
  {
    var sorted := Sorting.SortBy(scored, Health);
    assert forall i, j :: 0 <= i < j < |sorted| ==> Health(sorted[i]) <= Health(sorted[j]);
    UnrankAssignRanks(sorted);
    AssignRanks(sorted)
  }

  /** Scores that all lie in [0, 1] still do after ranking. */
  lemma RankByHealthBounded(scored: seq<Scored>)
    requires forall i :: 0 <= i < |scored| ==> 0.0 <= scored[i].healthScore <= 1.0
    ensures forall i :: 0 <= i < |RankByHealth(scored)| ==> 0.0 <= RankByHealth(scored)[i].healthScore <= 1.0
  {
    var ranked := RankByHealth(scored);
    var u := Unrank(ranked);
    forall i | 0 <= i < |ranked|
      ensures 0.0 <= ranked[i].healthScore <= 1.0
    {
      assert u[i] in multiset(scored);
    }
  }

  /** streamlit_app.py:28-50. The returned frame holds the rows of the
      coerced input, each with its score, as a permutation sorted by
      ascending score; row `i` has rank `i + 1` and the tier of its score. */
  function PredictHealthScores(f: Frame, classify: Classifier): (res: Results)
    requires WellFormed(f)
    ensures res.columns == f.columns
    ensures |res.rows| == |f.rows|
    ensures multiset(Unrank(res.rows)) == multiset(ScoreRows(CoerceTotalCharges(f), classify))
    ensures forall i, j :: 0 <= i < j < |res.rows| ==> res.rows[i].healthScore <= res.rows[j].healthScore
    ensures forall i :: 0 <= i < |res.rows| ==> res.rows[i].rank == i + 1
    ensures forall i :: 0 <= i < |res.rows| ==>
      0.0 <= res.rows[i].healthScore <= 1.0 && res.rows[i].riskLevel == RiskLevelOf(res.rows[i].healthScore)
  {
    var coerced := CoerceTotalCharges(f);
    var scored := ScoreRows(coerced, classify);
    RankByHealthBounded(scored);
    var ranked := RankByHealth(scored);
    assert |ranked| == |Unrank(ranked)| == |multiset(scored)| == |scored|;
    Results(coerced.columns, ranked)
  }

  /** The `Rank` column of a result. */
  function RankColumn(rows: seq<RankedRow>): (ranks: seq<nat>)
    ensures |ranks| == |rows|
  {
    seq(|rows|, i requires 0 <= i < |rows| => rows[i].rank)
  }

  /** The ranks of the result are exactly 1, 2, ..., N in order: contiguous,
      each used once. */
  lemma RanksAreOneToN(f: Frame, classify: Classifier)
    requires WellFormed(f)
    ensures RankColumn(PredictHealthScores(f, classify).rows) == seq(|f.rows|, i => i + 1)
  {
  }

  /** Every returned row has a tier, and tiers never get worse further down
      the ranking: High Risk rows come first, then Medium Risk, then Healthy. */
  lemma TiersNeverDecrease(f: Frame, classify: Classifier)
    requires WellFormed(f)
    ensures var rows := PredictHealthScores(f, classify).rows;
      && (forall i :: 0 <= i < |rows| ==> rows[i].riskLevel.Some?)
      && (forall i, j :: 0 <= i < j < |rows| ==>
            Severity(rows[i].riskLevel.value) <= Severity(rows[j].riskLevel.value))
  {
  }

  /** The order pandas gives to rows with equal scores is unspecified; any
      sorted order of the scored rows yields the same `health_score`,
      `Rank` and `Risk_Level` columns as the model's. */
  lemma TieOrderIrrelevant(f: Frame, classify: Classifier, other: seq<Scored>)
    requires WellFormed(f)
    requires multiset(other) == multiset(ScoreRows(CoerceTotalCharges(f), classify))
    requires Sorting.SortedBy(other, Health)
    ensures var rows := PredictHealthScores(f, classify).rows;
      var alt := AssignRanks(other);
      && |alt| == |rows|
      && forall i :: 0 <= i < |rows| ==>
           && alt[i].healthScore == rows[i].healthScore
           && alt[i].rank == rows[i].rank
           && alt[i].riskLevel == rows[i].riskLevel
  {
    var coerced := CoerceTotalCharges(f);
    var sorted := Sorting.SortBy(ScoreRows(coerced, classify), Health);
    Sorting.SortedPermutationsShareKeys(sorted, other, Health);
  }

  /** The customer the classifier rates strictly most likely to churn is
      ranked first, with score `1 - p`. */
  lemma WorstCustomerRanksFirst(f: Frame, classify: Classifier, k: nat)
    requires WellFormed(f) && k < |f.rows|
    requires var g := CoerceTotalCharges(f);
      forall j :: 0 <= j < |g.rows| && j != k ==>
        classify(FeatureVector(g.columns, g.rows[j])) < classify(FeatureVector(g.columns, g.rows[k]))
    ensures var g := CoerceTotalCharges(f);
      var first := PredictHealthScores(f, classify).rows[0];
      && first.rank == 1
      && first.cells == g.rows[k]
      && first.healthScore == 1.0 - classify(FeatureVector(g.columns, g.rows[k]))
  {
    var g := CoerceTotalCharges(f);
    var scored := ScoreRows(g, classify);
    var sorted := Sorting.SortBy(scored, Health);
    var x := scored[k];
    forall y | y in scored && y != x
      ensures Health(x) < Health(y)
    {
      var j :| 0 <= j < |scored| && scored[j] == y;
    }
    Sorting.StrictMinimumFirst(scored, sorted, Health, x);
    UnrankAssignRanks(sorted);
  }

  /** The outreach scenario: one customer with churn probability 0.9 and all
      others at 0.1. That customer is ranked first as High Risk with score
      0.1, and every other row is Healthy. */
  lemma SingleAtRiskCustomer(f: Frame, classify: Classifier, k: nat)
    requires WellFormed(f) && k < |f.rows|
    requires var g := CoerceTotalCharges(f);
      && classify(FeatureVector(g.columns, g.rows[k])) == 0.9
      && forall j :: 0 <= j < |g.rows| && j != k ==> classify(FeatureVector(g.columns, g.rows[j])) == 0.1
    ensures var rows := PredictHealthScores(f, classify).rows;
      && rows[0].cells == CoerceTotalCharges(f).rows[k]
      && rows[0].rank == 1
      && rows[0].healthScore == 0.1
      && rows[0].riskLevel == Some(HighRisk)
      && forall i :: 1 <= i < |rows| ==> rows[i].riskLevel == Some(Healthy)
  {
    var g := CoerceTotalCharges(f);
    WorstCustomerRanksFirst(f, classify, k);
    var res := PredictHealthScores(f, classify);
    var scored := ScoreRows(g, classify);
    var u := Unrank(res.rows);
    assert u[0] == scored[k];
    Sorting.OccursOnce(scored, k);
    forall i | 1 <= i < |res.rows|
      ensures res.rows[i].riskLevel == Some(Healthy)
    {
      // The one row scored 0.1 is already at position 0.
      Sorting.OnceMeansOnePosition(u, scored[k], 0, i);
      assert u[i] in multiset(scored);
      var j :| 0 <= j < |scored| && scored[j] == u[i];
    }
  }

  // ---------------------------------------------------------------------
  // Top five (streamlit_app.py:157)
  // ---------------------------------------------------------------------

  const TopCount: nat := 5

  /** `results.sort_values("health_score").head(5)`: `min(5, N)` rows of the
      result, none of them healthier than a row left out. */
  function TopFive(results: seq<RankedRow>): (top: seq<RankedRow>)
    ensures |top| == if |results| < TopCount then |results| else TopCount
    ensures multiset(top) <= multiset(results)
    ensures Sorting.SortedBy(top, RankedHealth)
    ensures forall x, y :: x in top && y in multiset(results) - multiset(top) ==> x.healthScore <= y.healthScore
  {
    Sorting.SmallestBy(results, RankedHealth, TopCount)
  }

  /** Re-sorting the already sorted result cannot change its score column:
      the top five carry exactly the lowest scores of the result, in order. */
  lemma TopFiveScores(f: Frame, classify: Classifier)
    requires WellFormed(f)
    ensures var rows := PredictHealthScores(f, classify).rows;
      var top := TopFive(rows);
      forall i :: 0 <= i < |top| ==> top[i].healthScore == rows[i].healthScore
  {
    var rows := PredictHealthScores(f, classify).rows;
    assert Sorting.SortedBy(rows, RankedHealth);
    Sorting.SmallestOfSortedKeys(rows, RankedHealth, TopCount);
  }

  /** The top five are different rows: every row of the result carries its
      own rank, so none can be selected twice. */
  lemma TopFiveDistinct(f: Frame, classify: Classifier)
    requires WellFormed(f)
    ensures var top := TopFive(PredictHealthScores(f, classify).rows);
      forall a, b :: 0 <= a < b < |top| ==> top[a] != top[b]
  {
    TopFiveOfRankedDistinct(PredictHealthScores(f, classify).rows);
  }

  lemma TopFiveOfRankedDistinct(rows: seq<RankedRow>)
    requires forall i :: 0 <= i < |rows| ==> rows[i].rank == i + 1
    ensures var top := TopFive(rows);
      forall a, b :: 0 <= a < b < |top| ==> top[a] != top[b]
  {
    forall x | x in rows
      ensures multiset(rows)[x] == 1
    {
      var r :| 0 <= r < |rows| && rows[r] == x;
      Sorting.OccursOnce(rows, r);
    }
    SubMultisetOfDistinct(TopFive(rows), rows);
  }

  /** Rows drawn from a sequence in which every row occurs once are pairwise
      different. */
  lemma SubMultisetOfDistinct(top: seq<RankedRow>, rows: seq<RankedRow>)
    requires multiset(top) <= multiset(rows)
    requires forall x :: x in rows ==> multiset(rows)[x] == 1
    ensures forall a, b :: 0 <= a < b < |top| ==> top[a] != top[b]
  {
    forall a, b | 0 <= a < b < |top|
      ensures top[a] != top[b]
    {
      assert top[a] in multiset(rows);
      Sorting.OnceMeansOnePosition(top, top[a], a, b);
    }
  }
}
