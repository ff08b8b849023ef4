/** The part of `fetch_nyt_business_news_df` that follows the HTTP call: take
    the `results` list of the decoded payload, build a frame from it, keep the
    allow-listed columns and rename them. */
module FetchNews {
  import opened Seqs
  import opened Frames

  /** One key of a decoded JSON article object. */
  datatype Field = Field(key: string, value: Cell)

  /** A JSON article object: its keys in document order. */
  type Article = seq<Field>

  /** The decoded payload; `results` is None when the key is absent or null. */
  datatype Payload = Payload(results: Option<seq<Article>>)

  /** The allow-list, in order: source key and the column name it becomes. */
  const ColumnsToKeep: seq<(string, string)> := [
    ("title", "Title"),
    ("abstract", "Abstract"),
    ("url", "URL"),
    ("byline", "Author"),
    ("published_date", "Published Date"),
    ("multimedia", "Multimedia")
  ]

  predicate HasKey(a: Article, k: string) {
    exists j :: 0 <= j < |a| && a[j].key == k
  }

  /** The value stored under `k`, or a missing value. */
  function Lookup(a: Article, k: string): (c: Cell)
    ensures !HasKey(a, k) ==> c == Na
    ensures HasKey(a, k) ==> exists j :: 0 <= j < |a| && a[j].key == k && a[j].value == c
  {
    if a == [] then Na
    else if a[0].key == k then a[0].value
    else Lookup(a[1..], k)
  }

  /** `seen` extended by the keys of `a` it lacks, in the order they appear. */
  function AddKeys(seen: seq<string>, a: Article): (r: seq<string>)
    requires Distinct(seen)
    ensures Distinct(r)
    ensures forall k :: k in r <==> k in seen || HasKey(a, k)
    decreases |a|
  {
    if a == [] then seen
    else
      var seen' := if a[0].key in seen then seen else seen + [a[0].key];
      var r := AddKeys(seen', a[1..]);
      assert forall k :: HasKey(a, k) <==> k == a[0].key || HasKey(a[1..], k) by {
        forall k | HasKey(a, k) && k != a[0].key ensures HasKey(a[1..], k) {
          var j :| 0 <= j < |a| && a[j].key == k;
          assert a[1..][j - 1].key == k;
        }
      }
      r
  }

  /** The union of the keys of `articles`, in order of first appearance. */
  function ColumnsOf(seen: seq<string>, articles: seq<Article>): (r: seq<string>)
    requires Distinct(seen)
    ensures Distinct(r)
    ensures forall k :: k in r <==>
      k in seen || exists i :: 0 <= i < |articles| && HasKey(articles[i], k)
    decreases |articles|
  {
    if articles == [] then seen
    else
      var r := ColumnsOf(AddKeys(seen, articles[0]), articles[1..]);
      assert forall i :: 0 < i < |articles| ==> articles[i] == articles[1..][i - 1];
      r
  }

  /** `pd.DataFrame(articles)`: one row per article, one column per key seen in
      any article, missing keys filled with missing values. */
  function ToFrame(articles: seq<Article>): (f: Frame)
    ensures f.Valid() && |f.rows| == |articles|
    ensures forall k :: k in f.columns <==> exists i :: 0 <= i < |articles| && HasKey(articles[i], k)
    ensures forall i, j :: 0 <= i < |articles| && 0 <= j < |f.columns| ==>
      f.rows[i][j] == Lookup(articles[i], f.columns[j])
  {
    var columns := ColumnsOf([], articles);
    Frame(columns, seq(|articles|, i requires 0 <= i < |articles| =>
      seq(|columns|, j requires 0 <= j < |columns| => Lookup(articles[i], columns[j]))))
  }

  /** The allow-list entry's source key is a column of the frame. */
  function Present(columns: seq<string>): ((string, string)) -> bool {
    (entry: (string, string)) => entry.0 in columns
  }

  /** The source keys of a rename map are distinct (it is a dict) and so are
      the names they become. */
  predicate RenameMap(mapping: seq<(string, string)>) {
    && (forall i, j :: 0 <= i < j < |mapping| ==> mapping[i].0 != mapping[j].0)
    && (forall i, j :: 0 <= i < j < |mapping| ==> mapping[i].1 != mapping[j].1)
  }

  /** The mapping entries whose source key is a column, in mapping order. */
  function Kept(columns: seq<string>, mapping: seq<(string, string)>): (keep: seq<(string, string)>)
    ensures forall e :: e in keep ==> e.0 in columns
  {
    Filter(Present(columns), mapping)
  }

  /** The names the kept entries are renamed to. */
  function NewNames(keep: seq<(string, string)>): seq<string> {
    seq(|keep|, j requires 0 <= j < |keep| => keep[j].1)
  }

  /** The cells of `row` under the kept source keys, in the kept order. */
  function SelectCells(row: Row, columns: seq<string>, keep: seq<(string, string)>): (r: Row)
    requires |row| == |columns|
    requires forall e :: e in keep ==> e.0 in columns
    ensures |r| == |keep|
    ensures forall j :: 0 <= j < |keep| ==>
      exists i :: 0 <= i < |columns| && columns[i] == keep[j].0 && r[j] == row[i]
  {
    seq(|keep|, j requires 0 <= j < |keep| => row[IndexOf(columns, keep[j].0)])
  }

  /** The new column names, read through the positions the filter keeps. */
  lemma NewNamesAtIndices(columns: seq<string>, mapping: seq<(string, string)>)
    ensures var idx := Indices(Present(columns), mapping);
      var names := NewNames(Kept(columns, mapping));
      |names| == |idx| && forall j :: 0 <= j < |idx| ==> names[j] == mapping[idx[j]].1
  {
    FilterByIndices(Present(columns), mapping);
  }

  /** The new column names are distinct and are the targets of the mapped keys
      that are columns. */
  lemma NewNamesOfKept(columns: seq<string>, mapping: seq<(string, string)>)
    requires RenameMap(mapping)
    ensures Distinct(NewNames(Kept(columns, mapping)))
    ensures forall c :: c in NewNames(Kept(columns, mapping)) <==>
      exists e :: 0 <= e < |mapping| && mapping[e].0 in columns && mapping[e].1 == c
  {
    var idx := Indices(Present(columns), mapping);
    var names := NewNames(Kept(columns, mapping));
    NewNamesAtIndices(columns, mapping);
    forall j, l | 0 <= j < l < |names| ensures names[j] != names[l] {
      assert idx[j] < idx[l];
    }
    forall c | c in names
      ensures exists e :: 0 <= e < |mapping| && mapping[e].0 in columns && mapping[e].1 == c
    {
      var j :| 0 <= j < |names| && names[j] == c;
      assert Present(columns)(mapping[idx[j]]);
    }
    forall e | 0 <= e < |mapping| && mapping[e].0 in columns
      ensures mapping[e].1 in names
    {
      assert Present(columns)(mapping[e]);
      var k :| 0 <= k < |idx| && idx[k] == e;
      assert names[k] == mapping[e].1;
    }
  }

  /** `df[[k for k in mapping if k in df.columns]].rename(columns=mapping)`. */
  function SelectRename(f: Frame, mapping: seq<(string, string)>): (r: Frame)
    requires f.Valid() && RenameMap(mapping)
    ensures r.Valid()
    ensures |r.rows| == |f.rows|
    ensures forall c :: c in r.columns <==>
      exists e :: 0 <= e < |mapping| && mapping[e].0 in f.columns && mapping[e].1 == c
  {
    var keep := Kept(f.columns, mapping);
    NewNamesOfKept(f.columns, mapping);
    Frame(NewNames(keep), seq(|f.rows|, i requires 0 <= i < |f.rows| => SelectCells(f.rows[i], f.columns, keep)))
  }

  /** The renamed columns are the mapped keys present in the frame, in the
      order of the mapping, and each cell is the cell of its source column. */
  lemma {:induction false} SelectRenameCells(f: Frame, mapping: seq<(string, string)>)
    requires f.Valid() && RenameMap(mapping)
    ensures var r := SelectRename(f, mapping);
      var idx := Indices(Present(f.columns), mapping);
      && |r.columns| == |idx|
      && (forall j :: 0 <= j < |idx| ==>
            idx[j] < |mapping| && r.columns[j] == mapping[idx[j]].1 && mapping[idx[j]].0 in f.columns)
      && (forall j, l :: 0 <= j < l < |idx| ==> idx[j] < idx[l])
      && (forall e :: 0 <= e < |mapping| ==> (e in idx <==> mapping[e].0 in f.columns))
      && (forall i, j :: 0 <= i < |f.rows| && 0 <= j < |idx| ==>
            r.rows[i][j] == f.rows[i][IndexOf(f.columns, mapping[idx[j]].0)])
  {
    FilterByIndices(Present(f.columns), mapping);
    var idx := Indices(Present(f.columns), mapping);
    forall j | 0 <= j < |idx| ensures mapping[idx[j]].0 in f.columns {
      assert Present(f.columns)(mapping[idx[j]]);
    }
    forall e | 0 <= e < |mapping| && mapping[e].0 in f.columns ensures e in idx {
      assert Present(f.columns)(mapping[e]);
    }
  }

  lemma ColumnsToKeepIsRenameMap()
    ensures RenameMap(ColumnsToKeep)
  {
  }

  /** The select-and-rename of `fetch_nyt_business_news_df` with the fixed allow-list. */
  function SelectAndRename(f: Frame): (r: Frame)
    requires f.Valid()
    ensures r.Valid()
    ensures |r.rows| == |f.rows|
    ensures forall c :: c in r.columns <==>
      exists e :: 0 <= e < |ColumnsToKeep| && ColumnsToKeep[e].0 in f.columns && ColumnsToKeep[e].1 == c
  {
    ColumnsToKeepIsRenameMap();
    SelectRename(f, ColumnsToKeep)
  }

  /** `fetch_nyt_business_news_df` after decoding: no `results`, or an empty list, gives no frame; otherwise the
      allow-listed columns of the articles, one row per article. */
  function ArticlesFrame(data: Payload): (r: Option<Frame>)
    ensures r.None? <==> data.results == None || data.results == Some([])
    ensures r.Some? ==> r.value.Valid() && |r.value.rows| == |data.results.value|
    ensures r.Some? ==> forall c :: c in r.value.columns <==>
      exists e, a :: 0 <= e < |ColumnsToKeep| && 0 <= a < |data.results.value|
        && ColumnsToKeep[e].1 == c && HasKey(data.results.value[a], ColumnsToKeep[e].0)
  {
    match data.results
    case None => None
    case Some(articles) =>
      if articles == [] then None
      else Some(SelectAndRename(ToFrame(articles)))
  }

  /** Selecting and renaming the frame built from `articles`: each column is
      the display name of a kept entry, and each cell the article's value under
      that entry's source key. */
  lemma ToFrameSelectRename(articles: seq<Article>)
    ensures var f := ToFrame(articles);
      var idx := Indices(Present(f.columns), ColumnsToKeep);
      var r := SelectAndRename(f);
      && |r.columns| == |idx|
      && (forall j :: 0 <= j < |idx| ==> idx[j] < |ColumnsToKeep| && r.columns[j] == ColumnsToKeep[idx[j]].1)
      && forall a, j :: 0 <= a < |articles| && 0 <= j < |idx| ==>
           idx[j] < |ColumnsToKeep| && r.rows[a][j] == Lookup(articles[a], ColumnsToKeep[idx[j]].0)
  {
    var f := ToFrame(articles);
    var idx := Indices(Present(f.columns), ColumnsToKeep);
    ColumnsToKeepIsRenameMap();
    SelectRenameCells(f, ColumnsToKeep);
    var r := SelectRename(f, ColumnsToKeep);
    assert SelectAndRename(f) == r;
    forall a, j | 0 <= a < |articles| && 0 <= j < |idx|
      ensures r.rows[a][j] == Lookup(articles[a], ColumnsToKeep[idx[j]].0)
    {
      var key := ColumnsToKeep[idx[j]].0;
      assert r.rows[a][j] == f.rows[a][IndexOf(f.columns, key)];
    }
  }

  /** Each cell of the fetched frame is the article's value under the source key
      of its column, or a missing value when the article lacks that key; each
      column is the display name of that key. */
  lemma ArticlesFrameCells(data: Payload)
    requires data.results.Some? && data.results.value != []
    ensures var articles := data.results.value;
      var f := ToFrame(articles);
      var idx := Indices(Present(f.columns), ColumnsToKeep);
      var r := ArticlesFrame(data).value;
      && |r.columns| == |idx|
      && (forall j :: 0 <= j < |idx| ==> idx[j] < |ColumnsToKeep| && r.columns[j] == ColumnsToKeep[idx[j]].1)
      && forall a, j :: 0 <= a < |articles| && 0 <= j < |idx| ==>
           idx[j] < |ColumnsToKeep| && r.rows[a][j] == Lookup(articles[a], ColumnsToKeep[idx[j]].0)
  {
    ToFrameSelectRename(data.results.value);
    assert ArticlesFrame(data).value == SelectAndRename(ToFrame(data.results.value));
  }

  /** An extra key is dropped and the kept columns follow the allow-list, not
      the order of the keys in the articles. */
  lemma ProjectionExample()
    ensures var f := Frame(["url", "section", "title"], [[Text("u"), Text("s"), Text("t")]]);
      SelectAndRename(f) == Frame(["Title", "URL"], [[Text("t"), Text("u")]])
  {
    var columns := ["url", "section", "title"];
    KeptExample();
    assert IndexOf(columns, "title") == 2;
    assert IndexOf(columns, "url") == 0;
    var keep := Kept(columns, ColumnsToKeep);
    assert NewNames(keep) == ["Title", "URL"];
    assert SelectCells([Text("u"), Text("s"), Text("t")], columns, keep) == [Text("t"), Text("u")];
  }

  lemma PresentExample()
    ensures var p, k := Present(["url", "section", "title"]), ColumnsToKeep;
      p(k[0]) && !p(k[1]) && p(k[2]) && !p(k[3]) && !p(k[4]) && !p(k[5])
  {
  }

  lemma KeptExample()
    ensures Kept(["url", "section", "title"], ColumnsToKeep) == [("title", "Title"), ("url", "URL")]
  {
    var columns := ["url", "section", "title"];
    var p, k := Present(columns), ColumnsToKeep;
    PresentExample();
    assert k[..1][..0] == [];
    assert Filter(p, k[..1]) == [k[0]];
    assert k[..2][..1] == k[..1];
    assert Filter(p, k[..2]) == [k[0]];
    assert k[..3][..2] == k[..2];
    assert Filter(p, k[..3]) == [k[0], k[2]];
    assert k[..4][..3] == k[..3];
    assert Filter(p, k[..4]) == [k[0], k[2]];
    assert k[..5][..4] == k[..4];
    assert Filter(p, k[..5]) == [k[0], k[2]];
    assert k[..6][..5] == k[..5];
    assert k[..6] == k;
  }
}
