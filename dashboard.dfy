/** The computations of the dashboard page: the sentiment range filter, the
    label of the average score and the three-way breakdown of the scores. */
module Dashboard {
  import opened Seqs
  import opened Frames
  import SentimentScore

  /** The frame has a `sentiment` column holding a number in every row. */
  predicate NumericSentiment(df: Frame) {
    && df.Valid()
    && SentimentScore.SentimentColumn in df.columns
    && forall i :: 0 <= i < |df.rows| ==>
         df.rows[i][IndexOf(df.columns, SentimentScore.SentimentColumn)].Number?
  }

  /** The position of the `sentiment` column. */
  function SentimentIndex(df: Frame): (s: nat)
    requires NumericSentiment(df)
    ensures s < |df.columns|
  {
    IndexOf(df.columns, SentimentScore.SentimentColumn)
  }

  /** The `sentiment` column, row by row. */
  function Scores(df: Frame): (r: seq<real>)
    requires NumericSentiment(df)
    ensures |r| == |df.rows|
    ensures forall i :: 0 <= i < |df.rows| ==> df.rows[i][SentimentIndex(df)] == Number(r[i])
  {
    var s := SentimentIndex(df);
    seq(|df.rows|, i requires 0 <= i < |df.rows| => df.rows[i][s].x)
  }

  /** The slider's initial value: the whole score range. */
  const DefaultRange: (real, real) := (-1.0, 1.0)

  /** The row mask `(df["sentiment"] >= low) & (df["sentiment"] <= high)` for one row. */
  function InRange(s: nat, low: real, high: real): Row -> bool {
    (row: Row) => s < |row| && row[s].Number? && low <= row[s].x && row[s].x <= high
  }

  /** On a frame with numeric scores the mask holds for a row exactly when its
      score lies in [low, high]. */
  lemma InRangeIsScoreBounds(df: Frame, low: real, high: real)
    requires NumericSentiment(df)
    ensures forall i :: 0 <= i < |df.rows| ==>
      (InRange(SentimentIndex(df), low, high)(df.rows[i]) <==> low <= Scores(df)[i] <= high)
  {
  }

  /** `df[(df["sentiment"] >= low) & (df["sentiment"] <= high)]`. */
  function FilterBySentiment(df: Frame, low: real, high: real): (r: Frame)
    requires NumericSentiment(df)
    ensures r.columns == df.columns && NumericSentiment(r)
    ensures |r.rows| <= |df.rows|
  {
    var s := SentimentIndex(df);
    FilterKeepsNumeric(df, InRange(s, low, high));
    Frame(df.columns, Filter(InRange(s, low, high), df.rows))
  }

  /** Any selection of rows keeps the frame's shape and its numeric scores. */
  lemma FilterKeepsNumeric(df: Frame, mask: Row -> bool)
    requires NumericSentiment(df)
    ensures NumericSentiment(Frame(df.columns, Filter(mask, df.rows)))
  {
    var s := SentimentIndex(df);
    var rows: seq<Row> := Filter(mask, df.rows);
    var idx := Indices(mask, df.rows);
    FilterByIndices(mask, df.rows);
    forall k | 0 <= k < |rows| ensures |rows[k]| == |df.columns| && rows[k][s].Number? {
      assert rows[k] == df.rows[idx[k]];
    }
  }

  /** The filter keeps a row exactly when `low <= sentiment <= high`, both ends
      included, and the kept rows are a subsequence of the input: the k-th kept
      row is input row `idx[k]` and the positions increase. */
  lemma FilterKeepsExactlyInRange(df: Frame, low: real, high: real)
    requires NumericSentiment(df)
    ensures var idx := Indices(InRange(SentimentIndex(df), low, high), df.rows);
      var r := FilterBySentiment(df, low, high);
      && |r.rows| == |idx|
      && (forall k :: 0 <= k < |idx| ==> idx[k] < |df.rows| && r.rows[k] == df.rows[idx[k]])
      && (forall k, l :: 0 <= k < l < |idx| ==> idx[k] < idx[l])
      && (forall i :: 0 <= i < |df.rows| ==> (i in idx <==> low <= Scores(df)[i] <= high))
  {
    var s := SentimentIndex(df);
    var idx := Indices(InRange(s, low, high), df.rows);
    FilterByIndices(InRange(s, low, high), df.rows);
    InRangeIsScoreBounds(df, low, high);
    forall i | 0 <= i < |df.rows| ensures i in idx <==> low <= Scores(df)[i] <= high {
      if i in idx {
        var k :| 0 <= k < |idx| && idx[k] == i;
      }
    }
  }

  /** With the slider at its initial value every row whose score lies in
      [-1, 1] is shown, so the filter returns its input. */
  lemma DefaultRangeKeepsUnitScores(df: Frame)
    requires NumericSentiment(df)
    requires forall i :: 0 <= i < |df.rows| ==> -1.0 <= Scores(df)[i] <= 1.0
    ensures FilterBySentiment(df, DefaultRange.0, DefaultRange.1) == df
  {
    var s := SentimentIndex(df);
    forall i | 0 <= i < |df.rows| ensures InRange(s, -1.0, 1.0)(df.rows[i]) {
      assert df.rows[i][s] == Number(Scores(df)[i]);
    }
    FilterKeepsAll(InRange(s, -1.0, 1.0), df.rows);
  }

  /** A scored frame is a frame the dashboard can filter and break down. */
  lemma ScoredFeedsDashboard(df: Frame, textColumn: string, analyzer: string -> real, floatText: real -> string)
    requires df.Valid() && textColumn in df.columns
    ensures NumericSentiment(SentimentScore.Scored(df, textColumn, analyzer, floatText))
  {
    var r := SentimentScore.Scored(df, textColumn, analyzer, floatText);
    SentimentScore.ScoredShape(df, textColumn, analyzer, floatText);
    SentimentScore.ScoredKeepsTextRows(df, textColumn, analyzer, floatText);
    var t := IndexOf(df.columns, textColumn);
    var idx := Indices(SentimentScore.HasText(t), df.rows);
    forall k | 0 <= k < |r.rows| ensures r.rows[k][IndexOf(r.columns, SentimentScore.SentimentColumn)].Number? {
      SentimentScore.ScoreRowCells(df.rows[idx[k]], df.columns, textColumn, analyzer, floatText);
    }
  }

  // ---------------------------------------------------------------------------
  // Average sentiment and its label

  /** A float mean: NaN for no values. */
  datatype Average = NaN | Mean(value: real)

  function Sum(xs: seq<real>): real {
    if xs == [] then 0.0 else Sum(xs[..|xs| - 1]) + xs[|xs| - 1]
  }

  /** `Series.mean()` over the scores, without rounding. */
  function AverageOf(xs: seq<real>): (r: Average)
    ensures r.NaN? <==> xs == []
    ensures r.Mean? ==> r.value * |xs| as real == Sum(xs)
  {
    if xs == [] then NaN else Mean(Sum(xs) / |xs| as real)
  }

  /** The label the page shows for the average: "Positive" above zero,
      "Negative" below, "Neutral" otherwise. Every comparison with NaN is false,
      so NaN reads as "Neutral". */
  function SentimentLabel(avg: Average): (r: string)
    ensures r == "Positive" <==> avg.Mean? && avg.value > 0.0
    ensures r == "Negative" <==> avg.Mean? && avg.value < 0.0
    ensures r == "Neutral" <==> avg.NaN? || avg.value == 0.0
  {
    match avg
    case NaN => "Neutral"
    case Mean(x) => if x > 0.0 then "Positive" else if x < 0.0 then "Negative" else "Neutral"
  }

  /** The label is the sign of the sum of the scores: "Positive" iff it is
      positive, "Negative" iff it is negative, "Neutral" iff it is zero or
      there are no scores. */
  lemma LabelIsSignOfSum(xs: seq<real>)
    ensures SentimentLabel(AverageOf(xs)) == "Positive" <==> xs != [] && Sum(xs) > 0.0
    ensures SentimentLabel(AverageOf(xs)) == "Negative" <==> xs != [] && Sum(xs) < 0.0
    ensures SentimentLabel(AverageOf(xs)) == "Neutral" <==> xs == [] || Sum(xs) == 0.0
  {
    if xs != [] {
      var n := |xs| as real;
      var m := Sum(xs) / n;
      assert Sum(xs) == m * n;
      assert m > 0.0 <==> Sum(xs) > 0.0;
      assert m < 0.0 <==> Sum(xs) < 0.0;
    }
  }

  /** Bounds on every score bound the sum. */
  lemma {:induction false} SumBounds(xs: seq<real>, low: real, high: real)
    requires forall i :: 0 <= i < |xs| ==> low <= xs[i] <= high
    ensures low * |xs| as real <= Sum(xs) <= high * |xs| as real
  {
    if xs != [] {
      SumBounds(xs[..|xs| - 1], low, high);
    }
  }

  /** The mean of scores in [low, high] lies in [low, high]. */
  lemma MeanWithinBounds(xs: seq<real>, low: real, high: real)
    requires xs != []
    requires forall i :: 0 <= i < |xs| ==> low <= xs[i] <= high
    ensures low <= AverageOf(xs).value <= high
  {
    SumBounds(xs, low, high);
    var n := |xs| as real;
    var m := Sum(xs) / n;
    assert Sum(xs) == m * n;
    assert low * n <= m * n <= high * n;
  }

  // ---------------------------------------------------------------------------
  // Breakdown: pd.cut into three labelled bins, then value_counts

  datatype Label = Negative | Neutral | Positive

  /** The `bins` and `labels` arguments of the `pd.cut` call on the page. */
  const BinEdges: seq<real> := [-1.0, -0.05, 0.05, 1.0]
  const BinLabels: seq<Label> := [Negative, Neutral, Positive]

  predicate Increasing(edges: seq<real>) {
    forall i, j :: 0 <= i < j < |edges| ==> edges[i] < edges[j]
  }

  /** `searchsorted(edges, x, side="left")`: the number of edges below `x`. */
  function SearchSorted(edges: seq<real>, x: real): (c: nat)
    requires Increasing(edges)
    ensures c <= |edges|
    ensures forall i :: 0 <= i < c ==> edges[i] < x
    ensures forall i :: c <= i < |edges| ==> x <= edges[i]
  {
    if edges == [] || x <= edges[0] then 0
    else 1 + SearchSorted(edges[1..], x)
  }

  /** `pd.cut` with its defaults (bins closed on the right, lowest edge not
      included): the index of the bin holding `x`, or None for a value outside
      the edges. */
  function Cut(edges: seq<real>, x: real): (r: Option<nat>)
    requires Increasing(edges)
    ensures r.Some? <==> |edges| >= 2 && edges[0] < x <= edges[|edges| - 1]
    ensures r.Some? ==> r.value + 1 < |edges| && edges[r.value] < x <= edges[r.value + 1]
  {
    var c := SearchSorted(edges, x);
    if c == 0 || c == |edges| then None else Some(c - 1)
  }

  /** The label `pd.cut` gives a score; the bins are right-closed and disjoint. */
  function Bin(x: real): (r: Option<Label>)
    ensures r == Some(Negative) <==> -1.0 < x <= -0.05
    ensures r == Some(Neutral) <==> -0.05 < x <= 0.05
    ensures r == Some(Positive) <==> 0.05 < x <= 1.0
    ensures r == None <==> x <= -1.0 || 1.0 < x
  {
    match Cut(BinEdges, x)
    case None => None
    case Some(i) => Some(BinLabels[i])
  }

  /** The number of rows per label, as `value_counts` reports it. */
  datatype Counts = Counts(negative: nat, neutral: nat, positive: nat)

  function HasLabel(l: Label): real -> bool {
    x => Bin(x) == Some(l)
  }

  /** The scores that fall in some bin. */
  function Binned(): real -> bool {
    x => -1.0 < x <= 1.0
  }

  /** `pd.cut(...).value_counts()` over the `sentiment` column. */
  function Breakdown(xs: seq<real>): (r: Counts)
    ensures r.negative + r.neutral + r.positive == |Filter(Binned(), xs)|
  {
    BreakdownTotal(xs);
    Counts(|Filter(HasLabel(Negative), xs)|, |Filter(HasLabel(Neutral), xs)|, |Filter(HasLabel(Positive), xs)|)
  }

  /** Each binned score is counted under exactly one label; a score outside
      (-1, 1], such as -1 itself, is not counted at all. */
  lemma {:induction false} BreakdownTotal(xs: seq<real>)
    ensures |Filter(HasLabel(Negative), xs)| + |Filter(HasLabel(Neutral), xs)| + |Filter(HasLabel(Positive), xs)|
      == |Filter(Binned(), xs)|
  {
    if xs != [] {
      var x := xs[|xs| - 1];
      BreakdownTotal(xs[..|xs| - 1]);
      assert Binned()(x) <==> HasLabel(Negative)(x) || HasLabel(Neutral)(x) || HasLabel(Positive)(x);
    }
  }

  // ---------------------------------------------------------------------------
  // The sample frame `sample_data` of streamlit_app.py

  function SampleFrame(): (r: Frame)
    ensures r.Valid() && |r.rows| == 5
    ensures SentimentScore.SentimentColumn in r.columns
  {
    Frame(["Title", "Abstract", "URL", "Author", "Published Date", "sentiment"], [
      [Text("Tech Stocks Surge"), Text("AI drives gains"), Text("nytimes.com/1"), Text("Jane Doe"), Text("2025-02-24"), Number(0.3182)],
      [Text("Fed Raises Rates"), Text("Higher costs expected"), Text("nytimes.com/2"), Text("John Smith"), Text("2025-02-23"), Number(0.0)],
      [Text("Crypto Falls"), Text("Market dips"), Text("nytimes.com/3"), Text("Bob Clark"), Text("2025-02-22"), Number(-0.5106)],
      [Text("AI Boom Continues"), Text("Tech advances"), Text("nytimes.com/4"), Text("Alice Lee"), Text("2025-02-21"), Number(0.4404)],
      [Text("Market Dips"), Text("Economic slowdown"), Text("nytimes.com/5"), Text("Eve Brown"), Text("2025-02-20"), Number(-0.2732)]
    ])
  }

  const SampleScores: seq<real> := [0.3182, 0.0, -0.5106, 0.4404, -0.2732]

  lemma SampleScoresAreTheColumn()
    ensures NumericSentiment(SampleFrame()) && Scores(SampleFrame()) == SampleScores
  {
    var df := SampleFrame();
    assert Distinct(df.columns);
    assert IndexOf(df.columns, SentimentScore.SentimentColumn) == 5;
  }

  /** With the initial slider range all five sample rows are shown. */
  lemma SampleFilterKeepsAll()
    ensures NumericSentiment(SampleFrame())
    ensures FilterBySentiment(SampleFrame(), DefaultRange.0, DefaultRange.1) == SampleFrame()
  {
    SampleScoresAreTheColumn();
    DefaultRangeKeepsUnitScores(SampleFrame());
  }

  /** The label each sample score falls under. */
  lemma SampleBins()
    ensures Bin(SampleScores[0]) == Some(Positive) && Bin(SampleScores[1]) == Some(Neutral)
    ensures Bin(SampleScores[2]) == Some(Negative) && Bin(SampleScores[3]) == Some(Positive)
    ensures Bin(SampleScores[4]) == Some(Negative)
  {
  }

  /** Counting five scores that satisfy `p`, position by position. */
  lemma CountOfFive(p: real -> bool, xs: seq<real>)
    requires |xs| == 5
    ensures |Filter(p, xs)| == (if p(xs[0]) then 1 else 0) + (if p(xs[1]) then 1 else 0)
      + (if p(xs[2]) then 1 else 0) + (if p(xs[3]) then 1 else 0) + (if p(xs[4]) then 1 else 0)
  {
    assert xs[..0] == [];
    FilterPrefix(p, xs, 0);
    FilterPrefix(p, xs, 1);
    FilterPrefix(p, xs, 2);
    FilterPrefix(p, xs, 3);
    FilterPrefix(p, xs, 4);
    assert xs[..5] == xs;
  }

  /** The mean of the sample, -0.0252 / 5, is below zero. */
  lemma SampleSum()
    ensures Sum(SampleScores) == -0.0252
  {
    var xs := SampleScores;
    assert xs[..1][..0] == [] && xs[..2][..1] == xs[..1] && xs[..3][..2] == xs[..2];
    assert xs[..4][..3] == xs[..3] && xs[..5][..4] == xs[..4] && xs[..5] == xs;
    assert Sum(xs[..1]) == 0.3182;
    assert Sum(xs[..2]) == 0.3182;
    assert Sum(xs[..3]) == -0.1924;
    assert Sum(xs[..4]) == 0.248;
  }

  /** The sample has 2 Negative, 1 Neutral and 2 Positive scores. */
  lemma SampleCounts()
    ensures |Filter(HasLabel(Negative), SampleScores)| == 2
    ensures |Filter(HasLabel(Neutral), SampleScores)| == 1
    ensures |Filter(HasLabel(Positive), SampleScores)| == 2
  {
    var xs := SampleScores;
    SampleBins();
    CountOfFive(HasLabel(Negative), xs);
    assert !HasLabel(Negative)(xs[0]) && !HasLabel(Negative)(xs[1]) && HasLabel(Negative)(xs[2]);
    assert !HasLabel(Negative)(xs[3]) && HasLabel(Negative)(xs[4]);
    CountOfFive(HasLabel(Neutral), xs);
    assert !HasLabel(Neutral)(xs[0]) && HasLabel(Neutral)(xs[1]) && !HasLabel(Neutral)(xs[2]);
    assert !HasLabel(Neutral)(xs[3]) && !HasLabel(Neutral)(xs[4]);
    CountOfFive(HasLabel(Positive), xs);
    assert HasLabel(Positive)(xs[0]) && !HasLabel(Positive)(xs[1]) && !HasLabel(Positive)(xs[2]);
    assert HasLabel(Positive)(xs[3]) && !HasLabel(Positive)(xs[4]);
  }

  /** The sample breaks down into 2 Negative, 1 Neutral and 2 Positive, and its
      mean (-0.00504) is labelled "Negative". */
  lemma SampleBreakdown()
    ensures Breakdown(SampleScores) == Counts(2, 1, 2)
    ensures SentimentLabel(AverageOf(SampleScores)) == "Negative"
  {
    SampleCounts();
    SampleSum();
    assert AverageOf(SampleScores) == Mean(-0.0252 / 5.0);
  }
}
