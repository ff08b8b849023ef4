# News sentiment dashboard, modelled in Dafny

This project models the computational core of a small news sentiment
dashboard. The dashboard fetches the New York Times business top stories,
scores each article's text with a sentiment analyzer, and shows the articles
with their scores. The model covers four parts:

- **The article frame** (`FetchNews`, `fetch_news.dfy`). The decoded `results`
  list becomes a pandas frame. The frame keeps the six allow-listed keys that
  are present, in allow-list order, renamed to their display names. A missing
  or empty `results` list gives no frame.
- **The image choice** (`ImageUrl`, `image_url.dfy`). `get_image_url` returns
  the url of the first multimedia item that has a `url` key and the
  `threeByTwoSmallAt2X` format.
  Failing that, it returns the first item's url. An empty list, or a value
  that is not a list, gives no url.
- **Sentiment scoring** (`SentimentScore`, `sentiment_score.dfy`).
  `calculate_sentiment_score` is an imperative method with a loop. It is
  proved against the function `Scored`, and the function's properties are
  proved as lemmas. The validation order is kept: a missing column is
  rejected first, then an empty frame. Rows without text are dropped and the
  rest keep their order. The text column becomes strings, and the `sentiment`
  column holds the analyzer's compound score for each row. The input frame is
  a value, so the call cannot change it.
- **The dashboard page** (`Dashboard`, `dashboard.dfy`), with these parts:
  - the inclusive sentiment range filter of the sidebar slider;
  - the label of the average score;
  - the three-way `pd.cut` breakdown into Negative, Neutral and Positive;
  - the built-in sample frame.

`seqs.dfy` (module `Seqs`) holds generic sequence helpers: `Option`,
`Distinct`, `IndexOf`, and an order-keeping `Filter` with the `Indices` that
it keeps. `frames.dfy` (module `Frames`) holds the frame value: column names
plus rows of cells.

Frames are immutable values here. A cell is missing (`Na`), a string, a
number, or some other object together with the text `str()` gives for it.
Python's `str` on a float is a parameter (`floatText`), and so is the
analyzer (`string -> real`).

Two facts about the code shape the model:

- A score of exactly -0.05 is Negative. The `pd.cut` bins at
  streamlit_app.py:51 are closed on the right, so -0.05 falls in (-1, -0.05].
- Every failure that `fetch_nyt_business_news_df` and `calculate_sentiment_score`
  handle returns `None` (fetch_news.py:42, 65, 68, 100, 104, 108), so the
  model's failures are `None`. An empty API key raises `ValueError`
  (fetch_news.py:23-24) instead; that check is not modelled.

## Model

| member | source | states |
|---|---|---|
| `ImageUrl.FirstPreferred` | fetch_news.py:143-145 | None exactly when no item has a `url` key and the preferred format; otherwise the index of the first such item |
| `ImageUrl.GetImageUrl` | fetch_news.py:135-146 | not a list or an empty list gives None; the first preferred item's url wins; with no preferred item the first item's url (None when it has no url or a null one); any url returned is some item's url |
| `ImageUrl.FallbackIsFirstItemOnly` | fetch_news.py:146 | without a preferred item, a returned url is always the first item's |
| `ImageUrl.NullPreferredUrlGivesNoImage` | fetch_news.py:143-145 | a preferred item whose url is null ends the scan with None; a later preferred item is not consulted |
| `ImageUrl.PreferredItemsWithoutUrlAreSkipped` | fetch_news.py:143-146 | a preferred-format item lacking a `url` key is skipped, and a later preferred item beats the first-item fallback |
| `FetchNews.Lookup` | fetch_news.py:45 | a missing key gives a missing cell; otherwise the value stored under the key |
| `FetchNews.AddKeys` | fetch_news.py:45 | extending the column list by one article's keys keeps it duplicate-free and yields exactly the old names plus the article's keys |
| `FetchNews.ColumnsOf` | fetch_news.py:45 | the frame's columns are distinct and are exactly the keys of some article |
| `FetchNews.ToFrame` | fetch_news.py:45 | one row per article, one column per key seen in any article, each cell the article's value under that key or missing |
| `FetchNews.SelectCells` | fetch_news.py:59 | one cell per kept entry; the j-th cell is the row's cell in the column named by the j-th kept entry's source key |
| `FetchNews.Kept` | fetch_news.py:58 | every kept allow-list entry names a column of the frame |
| `FetchNews.NewNamesAtIndices` | fetch_news.py:58-59 | the j-th new column name is the display name of the j-th allow-list entry whose key is present |
| `FetchNews.NewNamesOfKept` | fetch_news.py:58-59 | the new names are distinct and are exactly the display names of allow-listed keys present in the frame |
| `FetchNews.SelectRename` | fetch_news.py:58-59 | the selected and renamed frame is well formed, keeps every row, and its columns are exactly the targets of the mapped keys that are present |
| `FetchNews.SelectRenameCells` | fetch_news.py:58-59 | the columns follow the mapping's order, a mapping entry is used iff its key is a column, and each cell is the input cell of its source column |
| `FetchNews.ColumnsToKeepIsRenameMap` | fetch_news.py:48-55 | the allow-list has distinct keys and distinct display names |
| `FetchNews.SelectAndRename` | fetch_news.py:48-59 | with the fixed allow-list: well formed, every row kept, columns exactly the display names of present keys |
| `FetchNews.ArticlesFrame` | fetch_news.py:38-59 | None iff `results` is missing, null or empty; otherwise a well-formed frame with one row per article whose columns are the display names of allow-listed keys some article has |
| `FetchNews.ArticlesFrameCells` | fetch_news.py:38-59 | (with its helper `ToFrameSelectRename`, which states the same over the article list) in the fetched frame the j-th column is the display name of the j-th present allow-listed key, and each cell is the article's value under that key, or missing |
| `FetchNews.PresentExample` | fetch_news.py:58 | of the allow-list, only `title` and `url` are columns of a frame with columns url, section, title |
| `FetchNews.KeptExample` | fetch_news.py:58 | for that frame the kept entries are title then url, in allow-list order |
| `FetchNews.ProjectionExample` | fetch_news.py:48-59 | an extra key is dropped and the result is ["Title", "URL"] with the cells reordered to match |
| `SentimentScore.PutScore` | fetch_news.py:118 | the score is written at the sentiment position (overwriting or appending), every other cell is unchanged |
| `SentimentScore.ScoreRow` | fetch_news.py:115-118 | the row's sentiment cell is the analyzer's value on the row's text as a string, the text cell holds that string, every other cell is unchanged |
| `SentimentScore.ScoreAll` | fetch_news.py:114-118 | at most one output row per input row, all of one width, each with a numeric score in the sentiment position |
| `SentimentScore.Scored` | fetch_news.py:111-118 | the frame a successful call returns: every input column kept in place, `sentiment` among the columns, no more rows than the input |
| `SentimentScore.ScoredColumns` | fetch_news.py:118 | assigning `sentiment` keeps every existing column in place and appends `sentiment` only when it is absent |
| `SentimentScore.ScoreAllByIndices` | fetch_news.py:114-118 | the scored rows are the rows whose text is present, each scored, in order |
| `SentimentScore.CalculateSentimentScore` | fetch_news.py:98-120 | a missing text column gives None, checked before emptiness; a frame with no rows gives None; otherwise exactly the scored frame |
| `SentimentScore.ScoredShape` | fetch_news.py:111-118 | the result is well formed and its columns are the input's, with `sentiment` appended when it was absent |
| `SentimentScore.ScoredKeepsTextRows` | fetch_news.py:111-118 | the output rows are the input rows with text present, each exactly once and in their original order, each one scored |
| `SentimentScore.ScoreRowCells` | fetch_news.py:115-118 | in a scored row the sentiment cell is the analyzer's value on the row's text as a string; the text column holds that string; every other column is unchanged |
| `SentimentScore.NoNewNameIsDefault` | fetch_news.py:48-55 | no allow-listed display name is "headline" |
| `SentimentScore.DefaultTextColumnNeverFetched` | fetch_news.py:71 | a frame from the fetch step never has the default text column "headline", so scoring it with the default is always rejected |
| `Dashboard.Scores` | streamlit_app.py:28 | the score column, one number per row, equal to each row's sentiment cell |
| `Dashboard.InRangeIsScoreBounds` | streamlit_app.py:28 | on a frame with numeric scores, the row mask `InRange` holds for row i exactly when low <= score i <= high |
| `Dashboard.FilterBySentiment` | streamlit_app.py:28 | the selection by the mask `InRange`: the filtered frame keeps the columns, has numeric scores and has no more rows than its input |
| `Dashboard.FilterKeepsExactlyInRange` | streamlit_app.py:28 | a row is kept iff low <= score <= high, both ends included; the kept rows are a subsequence of the input, in order |
| `Dashboard.DefaultRangeKeepsUnitScores` | streamlit_app.py:25-28 | at the slider's initial range (-1, 1) a frame whose scores lie in [-1, 1] passes through unchanged |
| `Dashboard.ScoredFeedsDashboard` | fetch_news.py:118 | a scored frame has a numeric `sentiment` column in every row, which the page filters on |
| `Dashboard.AverageOf` | fetch_news.py:126 | NaN iff there are no scores; otherwise a mean m with m * n equal to the sum of the n scores |
| `Dashboard.SentimentLabel` | streamlit_app.py:39 | "Positive" iff the average is a number above zero, "Negative" iff below zero, "Neutral" iff it is zero or NaN |
| `Dashboard.LabelIsSignOfSum` | streamlit_app.py:36-39 | the label is "Positive" iff the scores sum above zero, "Negative" iff below, and "Neutral" iff the sum is zero or there are no rows (a NaN mean) |
| `Dashboard.SumBounds` | fetch_news.py:126 | scores within [low, high] sum to within n*low and n*high |
| `Dashboard.MeanWithinBounds` | fetch_news.py:126 | the mean of scores within [low, high] lies in [low, high] |
| `Dashboard.SearchSorted` | streamlit_app.py:51 | the count c of edges strictly below x: edges before c are below x, the rest are at or above it |
| `Dashboard.Cut` | streamlit_app.py:51-52 | a bin exists iff first edge < x <= last edge; bin i then satisfies edge[i] < x <= edge[i+1] |
| `Dashboard.Bin` | streamlit_app.py:51-52 | Negative iff -1 < x <= -0.05, Neutral iff -0.05 < x <= 0.05, Positive iff 0.05 < x <= 1, and no label iff x <= -1 or x > 1 |
| `Dashboard.Breakdown` | streamlit_app.py:51-53 | the three counts add up to the number of scores in (-1, 1] |
| `Dashboard.BreakdownTotal` | streamlit_app.py:51-53 | each score in (-1, 1] is counted under exactly one label, and scores outside are not counted |
| `Dashboard.SampleFrame` | streamlit_app.py:13-21 | the sample frame is well formed, has five rows and a `sentiment` column |
| `Dashboard.SampleScoresAreTheColumn` | streamlit_app.py:13-21 | the sample frame has a numeric `sentiment` column holding 0.3182, 0, -0.5106, 0.4404, -0.2732 |
| `Dashboard.SampleFilterKeepsAll` | streamlit_app.py:13-28 | at the initial slider range all five sample rows are shown |
| `Dashboard.SampleBreakdown` | streamlit_app.py:36-53 | the sample breaks down into 2 Negative, 1 Neutral and 2 Positive, and its mean (-0.00504) is labelled "Negative" |

## Left out

- The HTTP request, the JSON decoding and the URL built from the API key (fetch_news.py:26-35) are I/O. The model starts from the decoded payload.
- The exception handlers (fetch_news.py:63-68) only turn I/O failures into `None`, so they are not modelled. The `ValueError` for an empty API key (fetch_news.py:22-24) and the key read from `st.secrets` (fetch_news.py:7) are configuration, and are left out too.
- The VADER lexicon check and download (fetch_news.py:88-95) are left out, and so is the analyzer's own scoring. The analyzer is an arbitrary function from text to score.
- The `isinstance` check (fetch_news.py:98-100) is left out. The model's input is a frame by its type, so the check always passes.
- Messages printed on failure are left out. Streamlit output is left out too: the title, the article table, the metric, the histogram, the pie chart and the CSV download.
- Payload shapes that the typed model excludes are left out. These are a decoded payload that is not a JSON object (on which `data.get` at fetch_news.py:38 raises `AttributeError`), a `results` value that is neither a list nor null, list entries that are not objects, media items that are not objects, and duplicate keys in one JSON object.
- `SentimentScore.AsText`: Python's text for a float is a parameter. Other objects carry their `str()` text with them.
- `Dashboard.AverageOf`: sums are exact reals, not floats. Rounding that changes the sign of a mean very close to zero is not modelled, and neither is NaN inside the score column. The `TypeError`/`ValueError` handler (fetch_news.py:129-131) is not modelled either.
- `Dashboard.FilterBySentiment`: the bounds are any reals. The slider only produces multiples of 0.1 in [-1, 1].
- `Dashboard.Breakdown`: counts are reported per label. The order in which `value_counts` lists them (by count) is not modelled.
- Frames are values, so the copy at fetch_news.py:111 is implicit. Aliasing between frames cannot occur.
- `SentimentScore.CalculateSentimentScore`: its input must have distinct column labels (`Frame.Valid`). pandas also accepts duplicate labels at fetch_news.py:98-108, where `df[text_column]` then selects several columns; that case is not modelled. Every frame `FetchNews.ToFrame` and `FetchNews.ArticlesFrame` build has distinct labels (their `Valid` ensures).
- Frames carry no row index. The `dropna` at fetch_news.py:114 keeps the surviving rows' original labels, gaps included; the model renumbers the rows from zero and records the original positions only through `Indices` in `SentimentScore.ScoredKeepsTextRows`.
- `ImageUrl.GetImageUrl`: a `url` entry is absent, null or a string. A url value of any other JSON type, which fetch_news.py:145-146 would return as it is, is not modelled.
