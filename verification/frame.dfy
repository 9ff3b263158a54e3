/** The uploaded customer table and the two preparations `predict_health_scores`
    applies to it before calling the classifier: coercing `TotalCharges` to a
    number (streamlit_app.py:29-30) and dropping the identifier and label
    columns from the feature table (streamlit_app.py:37-38). */
module Frame {
  import opened Wrappers
  import opened Digits
  import Numeric

  /** One cell as pandas holds it after `read_csv`: text, a number, or NaN. */
  datatype Value = Text(text: string) | Number(number: real) | Missing

  type Row = seq<Value>

  /** A data frame: named columns and rows of cells aligned with them. */
  datatype Frame = Frame(columns: seq<string>, rows: seq<Row>)

  predicate DistinctNames(names: seq<string>) {
    forall i, j :: 0 <= i < j < |names| ==> names[i] != names[j]
  }

  /** Column names are unique and every row has one cell per column. */
  predicate WellFormed(f: Frame) {
    && DistinctNames(f.columns)
    && forall i :: 0 <= i < |f.rows| ==> |f.rows[i]| == |f.columns|
  }

  const TotalCharges: string := "TotalCharges"
  const CustomerId: string := "customerID"
  const Churn: string := "Churn"

  // ---------------------------------------------------------------------
  // TotalCharges coercion: pd.to_numeric(errors="coerce").fillna(0)
  // ---------------------------------------------------------------------

  /** One cell through `pd.to_numeric(errors="coerce")` followed by
      `fillna(0)`: numbers stay, numeric text becomes its value, and text
      that is not a numeral as well as a missing cell become exactly 0. */
  function ToNumericOrZero(v: Value): (x: real)
    ensures v.Number? ==> x == v.number
    ensures v.Missing? ==> x == 0.0
    ensures v.Text? && Numeric.ParseDecimal(v.text).None? ==> x == 0.0
    ensures v.Text? && Numeric.ParseDecimal(v.text).Some? ==> x == Numeric.ParseDecimal(v.text).value
  {
    match v
    case Number(n) => n
    case Text(s) => Numeric.ParseDecimal(s).GetOr(0.0)
    case Missing => 0.0
  }

  /** Text of the form `whole.frac` coerces to its decimal value. */
  lemma CoerceDecimalText(whole: string, frac: string)
    requires AllDigits(whole) && AllDigits(frac) && |whole| + |frac| > 0
    ensures ToNumericOrZero(Text(whole + "." + frac)) == Numeric.DecimalValue(whole, frac)
  {
    Numeric.DecimalTextParses(whole, frac);
  }

  /** `"29.85"` reads as 29.85. */
  lemma CoercionExampleDecimal()
    ensures ToNumericOrZero(Text("29.85")) == 29.85
  {
    DecimalExampleValue();
    CoerceDecimalText("29", "85");
    assert "29" + "." + "85" == "29.85";
  }

  /** The whole and fractional digits of `"29.85"` make 29.85. */
  lemma DecimalExampleValue()
    ensures Numeric.DecimalValue("29", "85") == 29.85
  {
    assert DigitsValue("29") == 29 by { assert "29"[..1] == "2"; }
    assert DigitsValue("85") == 85 by { assert "85"[..1] == "8"; }
    assert Pow10(2) == 100;
  }

  /** The blank text `" "` becomes 0. */
  lemma CoercionExampleBlank()
    ensures ToNumericOrZero(Text(" ")) == 0.0
  {
    assert !Numeric.NumeralChar(" "[0]);
  }

  /** Numeral characters in no numeral's order, as in `"1.2.3"`, are not a
      number either and become 0. */
  lemma CoercionExampleMalformed()
    ensures ToNumericOrZero(Text("1.2.3")) == 0.0
  {
    Numeric.ParseDecimalAccepts("1.2.3");
    assert !Numeric.IsNumeral("1.2.3") by {
      var s := "1.2.3";
      assert !AllDigits(s) by { assert !IsDigit(s[1]); }
      forall k | 0 <= k < |s| && s[k] == '.'
        ensures !(AllDigits(s[..k]) && AllDigits(s[k + 1..]))
      {
        if k == 1 { assert !IsDigit(s[k + 1..][1]); }
        else { assert !IsDigit(s[..k][1]); }
      }
    }
  }

  /** The cells of one row after coercion of the `TotalCharges` column. */
  function CoerceCells(columns: seq<string>, row: Row): (r: Row)
    requires |row| == |columns|
    ensures |r| == |row|
    ensures forall j :: 0 <= j < |row| && columns[j] == TotalCharges ==> r[j] == Number(ToNumericOrZero(row[j]))
    ensures forall j :: 0 <= j < |row| && columns[j] != TotalCharges ==> r[j] == row[j]
  {
    seq(|row|, j requires 0 <= j < |row| =>
      if columns[j] == TotalCharges then Number(ToNumericOrZero(row[j])) else row[j])
  }

  /** streamlit_app.py:29-30. When the frame has a `TotalCharges` column,
      every cell of it becomes a number; every other cell, the column list
      and the row count are unchanged. Without the column the frame is
      returned as it is. */
  function CoerceTotalCharges(f: Frame): (g: Frame)
    requires WellFormed(f)
    ensures WellFormed(g) && g.columns == f.columns && |g.rows| == |f.rows|
    ensures TotalCharges !in f.columns ==> g == f
    ensures forall i, j :: 0 <= i < |f.rows| && 0 <= j < |f.columns| && f.columns[j] == TotalCharges ==>
      g.rows[i][j] == Number(ToNumericOrZero(f.rows[i][j]))
    ensures forall i, j :: 0 <= i < |f.rows| && 0 <= j < |f.columns| && f.columns[j] != TotalCharges ==>
      g.rows[i][j] == f.rows[i][j]
  {
    if TotalCharges in f.columns then
      Frame(f.columns, seq(|f.rows|, i requires 0 <= i < |f.rows| => CoerceCells(f.columns, f.rows[i])))
    else f
  }

  /** Coercing an already coerced frame changes nothing. */
  lemma CoerceTotalChargesIdempotent(f: Frame)
    requires WellFormed(f)
    ensures CoerceTotalCharges(CoerceTotalCharges(f)) == CoerceTotalCharges(f)
  {
    var g := CoerceTotalCharges(f);
    var h := CoerceTotalCharges(g);
    assert |h.rows| == |g.rows|;
    forall i | 0 <= i < |g.rows|
      ensures h.rows[i] == g.rows[i]
    {
      assert |h.rows[i]| == |g.rows[i]|;
      forall j | 0 <= j < |g.columns|
        ensures h.rows[i][j] == g.rows[i][j]
      {
        if g.columns[j] == TotalCharges {
          assert g.rows[i][j].Number?;
        }
      }
    }
  }

  // ---------------------------------------------------------------------
  // Feature selection: drop customerID and Churn when present
  // ---------------------------------------------------------------------

  predicate IsDropped(name: string) {
    name == CustomerId || name == Churn
  }

  /** Positions, from `from` onwards, of the columns the classifier sees:
      every position whose name is not dropped, in increasing order. */
  function KeptPositions(columns: seq<string>, from: nat): (ks: seq<nat>)
    requires from <= |columns|
    ensures forall a :: 0 <= a < |ks| ==> from <= ks[a] < |columns| && !IsDropped(columns[ks[a]])
    ensures forall a, b :: 0 <= a < b < |ks| ==> ks[a] < ks[b]
    decreases |columns| - from
  {
    if from == |columns| then []
    else if IsDropped(columns[from]) then KeptPositions(columns, from + 1)
    else [from] + KeptPositions(columns, from + 1)
  }

  /** No feature column is missed: every position from `from` on whose
      name is not dropped is kept. */
  lemma {:induction false} KeptPositionsComplete(columns: seq<string>, from: nat, j: nat)
    requires from <= j < |columns| && !IsDropped(columns[j])
    ensures j in KeptPositions(columns, from)
    decreases |columns| - from
  {
    if from < j {
      KeptPositionsComplete(columns, from + 1, j);
    }
  }

  /** The names of the feature columns, in frame order: the names at the
      kept positions. */
  function FeatureColumns(columns: seq<string>): (fs: seq<string>)
    ensures |fs| == |KeptPositions(columns, 0)|
    ensures forall a :: 0 <= a < |fs| ==> fs[a] == columns[KeptPositions(columns, 0)[a]]
  {
    var ks := KeptPositions(columns, 0);
    seq(|ks|, a requires 0 <= a < |ks| => columns[ks[a]])
  }

  /** streamlit_app.py:38. A name is a feature column exactly when the frame
      has it and it is neither `customerID` nor `Churn`. */
  lemma FeatureColumnsExact(columns: seq<string>, c: string)
    ensures c in FeatureColumns(columns) <==> c in columns && !IsDropped(c)
  {
    var ks := KeptPositions(columns, 0);
    var fs := FeatureColumns(columns);
    if c in columns && !IsDropped(c) {
      var j :| 0 <= j < |columns| && columns[j] == c;
      KeptPositionsComplete(columns, 0, j);
      var a :| 0 <= a < |ks| && ks[a] == j;
      assert fs[a] == c;
    }
    if c in fs {
      var a :| 0 <= a < |fs| && fs[a] == c;
      assert c == columns[ks[a]];
    }
  }

  /** streamlit_app.py:37-38. The feature vector of one row: the (name,
      cell) pairs of every column except `customerID` and `Churn`, in the
      frame's column order. */
  function FeatureVector(columns: seq<string>, row: Row): (fv: seq<(string, Value)>)
    requires |row| == |columns|
    ensures |fv| == |FeatureColumns(columns)|
    ensures forall a :: 0 <= a < |fv| ==> fv[a].0 == FeatureColumns(columns)[a]
    ensures forall a :: 0 <= a < |fv| ==> exists j :: 0 <= j < |columns| && fv[a] == (columns[j], row[j])
  {
    var ks := KeptPositions(columns, 0);
    seq(|ks|, a requires 0 <= a < |ks| => (columns[ks[a]], row[ks[a]]))
  }

  /** With no dropped column past `from`, every position from there on is kept. */
  lemma {:induction false} KeptPositionsAll(columns: seq<string>, from: nat)
    requires from <= |columns|
    requires forall j :: 0 <= j < |columns| ==> !IsDropped(columns[j])
    ensures |KeptPositions(columns, from)| == |columns| - from
    ensures forall a :: 0 <= a < |columns| - from ==> KeptPositions(columns, from)[a] == from + a
    decreases |columns| - from
  {
    if from < |columns| {
      assert !IsDropped(columns[from]);
      KeptPositionsAll(columns, from + 1);
      assert KeptPositions(columns, from) == [from] + KeptPositions(columns, from + 1);
    }
  }

  /** Dropping columns that are absent is a no-op: a frame without
      `customerID` and `Churn` is its own feature table. */
  lemma DropAbsentIsNoOp(columns: seq<string>, row: Row)
    requires |row| == |columns|
    requires CustomerId !in columns && Churn !in columns
    ensures FeatureColumns(columns) == columns
    ensures FeatureVector(columns, row) == seq(|columns|, j requires 0 <= j < |columns| => (columns[j], row[j]))
  {
    NothingDropped(columns);
    AllColumnsAreFeatures(columns);
    WholeRowIsFeatureVector(columns, row);
  }

  /** When every position is kept, the feature names are all the names. */
  lemma AllColumnsAreFeatures(columns: seq<string>)
    requires |KeptPositions(columns, 0)| == |columns|
    requires forall a :: 0 <= a < |columns| ==> KeptPositions(columns, 0)[a] == a
    ensures FeatureColumns(columns) == columns
  {
    var fs := FeatureColumns(columns);
    forall a | 0 <= a < |columns|
      ensures fs[a] == columns[a]
    {
      assert fs[a] == columns[KeptPositions(columns, 0)[a]];
    }
  }

  /** When every position is kept, the feature vector is the whole row. */
  lemma WholeRowIsFeatureVector(columns: seq<string>, row: Row)
    requires |row| == |columns|
    requires |KeptPositions(columns, 0)| == |columns|
    requires forall a :: 0 <= a < |columns| ==> KeptPositions(columns, 0)[a] == a
    ensures FeatureVector(columns, row) == seq(|columns|, j requires 0 <= j < |columns| => (columns[j], row[j]))
  {
    var ks := KeptPositions(columns, 0);
    var fv := FeatureVector(columns, row);
    var whole := seq(|columns|, j requires 0 <= j < |columns| => (columns[j], row[j]));
    assert |fv| == |whole|;
    forall a | 0 <= a < |columns|
      ensures fv[a] == whole[a]
    {
      assert fv[a] == (columns[ks[a]], row[ks[a]]);
    }
  }

  /** Without `customerID` and `Churn` every position is kept, in order. */
  lemma NothingDropped(columns: seq<string>)
    requires CustomerId !in columns && Churn !in columns
    ensures |KeptPositions(columns, 0)| == |columns|
    ensures forall a :: 0 <= a < |columns| ==> KeptPositions(columns, 0)[a] == a
  {
    assert forall j :: 0 <= j < |columns| ==> !IsDropped(columns[j]) by {
      forall j | 0 <= j < |columns| ensures !IsDropped(columns[j]) {
        assert columns[j] in columns;
      }
    }
    KeptPositionsAll(columns, 0);
  }
}
