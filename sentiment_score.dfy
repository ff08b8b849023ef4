/** `calculate_sentiment_score`: validate the frame, drop the rows whose text is
    missing, turn the text column into strings and attach the analyzer's
    compound score as the `sentiment` column. The analyzer is a parameter. */
module SentimentScore {
  import opened Seqs
  import opened Frames
  import FetchNews

  /** The column scored when the caller names none. */
  const DefaultTextColumn: string := "headline"

  /** The column the scores are written to. */
  const SentimentColumn: string := "sentiment"

  /** `str(cell)`, as `astype(str)` applies it; `floatText` is Python's `str`
      on a float. Missing cells never reach it: they are dropped first. */
  function AsText(c: Cell, floatText: real -> string): string
    requires !c.Na?
  {
    match c
    case Text(s) => s
    case Number(x) => floatText(x)
    case Other(shown) => shown
  }

  /** The row has a value in column `t` (what `dropna(subset=[t])` keeps). */
  function HasText(t: nat): Row -> bool {
    (row: Row) => t < |row| && !row[t].Na?
  }

  /** The columns after the assignment `df["sentiment"] = ...`: an existing
      `sentiment` column is overwritten where it stands, otherwise one is
      appended. */
  function ScoredColumns(columns: seq<string>): (r: seq<string>)
    ensures SentimentColumn in r
    ensures forall j :: 0 <= j < |columns| ==> j < |r| && r[j] == columns[j]
    ensures |r| == if SentimentColumn in columns then |columns| else |columns| + 1
  {
    if SentimentColumn in columns then columns else columns + [SentimentColumn]
  }

  /** One kept row after `astype(str)` on column `t` and the score written at
      position `s` (which is the end of the row when the column is new). */
  function ScoreRow(row: Row, t: nat, s: nat, analyzer: string -> real, floatText: real -> string): (r: Row)
    requires t < |row| && !row[t].Na? && s <= |row|
    ensures |r| == if s < |row| then |row| else |row| + 1
    ensures r[s] == Number(analyzer(AsText(row[t], floatText)))
    ensures t != s ==> r[t] == Text(AsText(row[t], floatText))
    ensures forall j :: 0 <= j < |row| && j != t && j != s ==> r[j] == row[j]
  {
    PutScore(row[t := Text(AsText(row[t], floatText))], s, analyzer(AsText(row[t], floatText)))
  }

  function PutScore(row: Row, s: nat, score: real): (r: Row)
    requires s <= |row|
    ensures |r| == if s < |row| then |row| else |row| + 1
    ensures r[s] == Number(score)
    ensures forall j :: 0 <= j < |row| && j != s ==> r[j] == row[j]
  {
    if s < |row| then row[s := Number(score)] else row + [Number(score)]
  }

  /** Every row has `width` cells. */
  predicate Rectangular(rows: seq<Row>, width: nat) {
    forall i :: 0 <= i < |rows| ==> |rows[i]| == width
  }

  /** `dropna(subset=[t])` followed by the two column assignments, over `rows`:
      the rows with a value at `t`, each scored, in order. */
  function ScoreAll(rows: seq<Row>, width: nat, t: nat, s: nat, analyzer: string -> real, floatText: real -> string): (r: seq<Row>)
    requires Rectangular(rows, width) && t < width && s <= width
    ensures |r| <= |rows|
    ensures Rectangular(r, if s < width then width else width + 1)
    ensures forall k :: 0 <= k < |r| ==> r[k][s].Number?
  {
    if rows == [] then []
    else
      var front, last := rows[..|rows| - 1], rows[|rows| - 1];
      ScoreAll(front, width, t, s, analyzer, floatText)
        + (if last[t].Na? then [] else [ScoreRow(last, t, s, analyzer, floatText)])
  }

  /** Scoring a prefix one row longer. */
  lemma ScoreAllPrefix(rows: seq<Row>, i: nat, width: nat, t: nat, s: nat, analyzer: string -> real, floatText: real -> string)
    requires Rectangular(rows, width) && t < width && s <= width && i < |rows|
    ensures Rectangular(rows[..i], width) && Rectangular(rows[..i + 1], width)
    ensures ScoreAll(rows[..i + 1], width, t, s, analyzer, floatText)
      == ScoreAll(rows[..i], width, t, s, analyzer, floatText)
         + (if rows[i][t].Na? then [] else [ScoreRow(rows[i], t, s, analyzer, floatText)])
  {
    assert rows[..i + 1][..i] == rows[..i];
  }

  /** The scored rows are the rows at `Indices(HasText(t), rows)`, each scored. */
  lemma {:induction false} ScoreAllByIndices(rows: seq<Row>, width: nat, t: nat, s: nat, analyzer: string -> real, floatText: real -> string)
    requires Rectangular(rows, width) && t < width && s <= width
    ensures var idx := Indices(HasText(t), rows);
      && |ScoreAll(rows, width, t, s, analyzer, floatText)| == |idx|
      && forall k :: 0 <= k < |idx| ==>
           !rows[idx[k]][t].Na?
           && ScoreAll(rows, width, t, s, analyzer, floatText)[k] == ScoreRow(rows[idx[k]], t, s, analyzer, floatText)
  {
    if rows != [] {
      var front, last := rows[..|rows| - 1], rows[|rows| - 1];
      ScoreAllByIndices(front, width, t, s, analyzer, floatText);
      var all, before := ScoreAll(rows, width, t, s, analyzer, floatText), ScoreAll(front, width, t, s, analyzer, floatText);
      var idx, idxFront := Indices(HasText(t), rows), Indices(HasText(t), front);
      var tail := if last[t].Na? then [] else [ScoreRow(last, t, s, analyzer, floatText)];
      assert all == before + tail;
      assert idx == idxFront + (if last[t].Na? then [] else [|rows| - 1]) by {
        assert HasText(t)(last) <==> !last[t].Na?;
      }
      forall k | 0 <= k < |idx|
        ensures !rows[idx[k]][t].Na? && all[k] == ScoreRow(rows[idx[k]], t, s, analyzer, floatText)
      {
        if k < |idxFront| {
          assert rows[idx[k]] == front[idxFront[k]];
        }
      }
    }
  }

  /** The frame that a successful call returns. */
  function Scored(df: Frame, textColumn: string, analyzer: string -> real, floatText: real -> string): (r: Frame)
    requires df.Valid() && textColumn in df.columns
    ensures SentimentColumn in r.columns
    ensures forall j :: 0 <= j < |df.columns| ==> j < |r.columns| && r.columns[j] == df.columns[j]
    ensures |r.rows| <= |df.rows|
  {
    var t := IndexOf(df.columns, textColumn);
    var columns := ScoredColumns(df.columns);
    Frame(columns, ScoreAll(df.rows, |df.columns|, t, IndexOf(columns, SentimentColumn), analyzer, floatText))
  }

  /** `calculate_sentiment_score`. A frame lacking `textColumn` gives None, and so does
      one with no rows (checked second); otherwise the scored copy. The input
      is a value, so it is left as it was. */
  method CalculateSentimentScore(dfNews: Frame, textColumn: string, analyzer: string -> real, floatText: real -> string)
    returns (r: Option<Frame>)
    requires dfNews.Valid()
    ensures textColumn !in dfNews.columns ==> r == None
    ensures textColumn in dfNews.columns && dfNews.rows == [] ==> r == None
    ensures textColumn in dfNews.columns && dfNews.rows != [] ==>
      r == Some(Scored(dfNews, textColumn, analyzer, floatText))
  {
    if textColumn !in dfNews.columns {
      return None;
    }
    if |dfNews.rows| == 0 {
      return None;
    }
    var df := dfNews;
    var width := |df.columns|;
    var t := IndexOf(df.columns, textColumn);
    var columns := ScoredColumns(df.columns);
    var s := IndexOf(columns, SentimentColumn);
    var rows: seq<Row> := [];
    var i := 0;
    while i < |df.rows|
      invariant 0 <= i <= |df.rows|
      invariant Rectangular(df.rows[..i], width)
      invariant rows == ScoreAll(df.rows[..i], width, t, s, analyzer, floatText)
    {
      ScoreAllPrefix(df.rows, i, width, t, s, analyzer, floatText);
      var row := df.rows[i];
      if !row[t].Na? {
        rows := rows + [ScoreRow(row, t, s, analyzer, floatText)];
      }
      i := i + 1;
    }
    assert df.rows[..i] == df.rows;
    r := Some(Frame(columns, rows));
  }

  /** A successful call returns a well-formed frame holding every input column
      in place, with `sentiment` appended when the input lacked it. */
  lemma ScoredShape(df: Frame, textColumn: string, analyzer: string -> real, floatText: real -> string)
    requires df.Valid() && textColumn in df.columns
    ensures var r := Scored(df, textColumn, analyzer, floatText);
      && r.Valid()
      && r.columns == (if SentimentColumn in df.columns then df.columns else df.columns + [SentimentColumn])
  {
    var r := Scored(df, textColumn, analyzer, floatText);
    var t := IndexOf(df.columns, textColumn);
    var s := IndexOf(r.columns, SentimentColumn);
    ScoreAllByIndices(df.rows, |df.columns|, t, s, analyzer, floatText);
    var idx := Indices(HasText(t), df.rows);
    forall k | 0 <= k < |r.rows| ensures |r.rows[k]| == |r.columns| {
      assert |df.rows[idx[k]]| == |df.columns|;
    }
    assert Distinct(r.columns) by {
      if SentimentColumn !in df.columns {
        forall i, j | 0 <= i < j < |r.columns| ensures r.columns[i] != r.columns[j] {
          if j == |df.columns| {
            assert r.columns[i] == df.columns[i];
          }
        }
      }
    }
  }

  /** The rows of a successful call are the input rows whose text is present,
      each once and in their original order: the k-th output row comes from
      input row `idx[k]`, the positions increase, every row with text has its
      position in `idx`, and each output row is its input row scored. */
  lemma ScoredKeepsTextRows(df: Frame, textColumn: string, analyzer: string -> real, floatText: real -> string)
    requires df.Valid() && textColumn in df.columns
    ensures var t := IndexOf(df.columns, textColumn);
      var idx := Indices(HasText(t), df.rows);
      var r := Scored(df, textColumn, analyzer, floatText);
      && |r.rows| == |idx|
      && (forall k :: 0 <= k < |idx| ==> idx[k] < |df.rows| && !df.rows[idx[k]][t].Na?)
      && (forall k, l :: 0 <= k < l < |idx| ==> idx[k] < idx[l])
      && (forall i :: 0 <= i < |df.rows| && !df.rows[i][t].Na? ==> i in idx)
      && (forall k :: 0 <= k < |idx| ==>
            r.rows[k] == ScoreRow(df.rows[idx[k]], t, IndexOf(r.columns, SentimentColumn), analyzer, floatText))
  {
    var t := IndexOf(df.columns, textColumn);
    var r := Scored(df, textColumn, analyzer, floatText);
    ScoreAllByIndices(df.rows, |df.columns|, t, IndexOf(r.columns, SentimentColumn), analyzer, floatText);
    forall i | 0 <= i < |df.rows| && !df.rows[i][t].Na? ensures i in Indices(HasText(t), df.rows) {
      assert df.rows[i] in df.rows;
      assert HasText(t)(df.rows[i]);
    }
  }

  /** Within a scored row: the score is the analyzer's value on the row's text,
      the text column holds that text as a string (unless it is itself the
      `sentiment` column, which the score overwrites), and every other input
      column keeps its cell. */
  lemma ScoreRowCells(row: Row, columns: seq<string>, textColumn: string, analyzer: string -> real, floatText: real -> string)
    requires Distinct(columns) && |row| == |columns| && textColumn in columns
    requires !row[IndexOf(columns, textColumn)].Na?
    ensures var t := IndexOf(columns, textColumn);
      var out := ScoredColumns(columns);
      var s := IndexOf(out, SentimentColumn);
      var text := AsText(row[t], floatText);
      var r := ScoreRow(row, t, s, analyzer, floatText);
      && s < |r|
      && r[s] == Number(analyzer(text))
      && (textColumn != SentimentColumn ==> r[t] == Text(text))
      && (forall j :: 0 <= j < |columns| && j != t && columns[j] != SentimentColumn ==> r[j] == row[j])
  {
    var out := ScoredColumns(columns);
    var s := IndexOf(out, SentimentColumn);
    if SentimentColumn !in columns {
      assert out[|columns|] == SentimentColumn;
    }
  }

  lemma NoNewNameIsDefault()
    ensures forall e :: 0 <= e < |FetchNews.ColumnsToKeep| ==> FetchNews.ColumnsToKeep[e].1 != DefaultTextColumn
  {
  }

  /** With the default `text_column`, a frame from the fetch step is always
      rejected: its columns are the renamed ones, and "headline" is not among
      them. */
  lemma DefaultTextColumnNeverFetched(data: FetchNews.Payload)
    requires data.results.Some? && data.results.value != []
    ensures DefaultTextColumn !in FetchNews.ArticlesFrame(data).value.columns
  {
    NoNewNameIsDefault();
  }
}
