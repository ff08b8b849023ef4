/** A pandas DataFrame as a value: an ordered list of column names and a
    sequence of rows, each row holding one cell per column. */
module Frames {
  import opened Seqs

  /** One cell of a frame. `Na` is a missing value (None or NaN); `Text` a
      Python string; `Number` a float such as a sentiment score; `Other` any
      other Python object, carrying the text that `str()` gives for it. */
  datatype Cell = Na | Text(s: string) | Number(x: real) | Other(shown: string)

  type Row = seq<Cell>

  datatype Frame = Frame(columns: seq<string>, rows: seq<Row>) {
    /** Column names are unique and every row has one cell per column. */
    predicate Valid() {
      && Distinct(columns)
      && forall i :: 0 <= i < |rows| ==> |rows[i]| == |columns|
    }
  }
}
