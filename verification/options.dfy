/**
  The choices offered by the category select boxes: `'All'` first, then
  the distinct non-missing values of the column in ascending order.
 */
module Options {
  import opened Wrappers
  import opened Table
  import Text

  /** The sentinel choice that places no constraint on its column. */
  const All: string := "All"

  /** The text values of a column, in row order, missing cells dropped. */
  function TextValues(cells: seq<Cell>): (r: seq<string>)
    ensures forall v :: v in r <==> Text(v) in cells
  {
    if cells == [] then []
    else
      var rest := TextValues(cells[1..]);
      assert forall x :: x in cells <==> x == cells[0] || x in cells[1..] by {
        assert cells == [cells[0]] + cells[1..];
      }
      if cells[0].Text? then [cells[0].text] + rest else rest
  }

  /**
    `['All'] + sorted(df[column].dropna().unique().tolist())`; indexing an
    absent column raises `KeyError`.
   */
  function OptionList(df: Frame, column: Column): (r: Result<seq<string>, LoadError>)
    ensures r.Failure? <==> column !in df.columns
    ensures r.Failure? ==> r.error == KeyError(column)
    ensures r.Success? ==> |r.value| >= 1 && r.value[0] == All
    ensures r.Success? ==> Text.StrictlySorted(r.value[1..])
    ensures r.Success? ==> forall v :: v in r.value[1..] <==>
                                   exists i :: 0 <= i < |df.rows| && Get(df.rows[i], column) == Text(v)
  {
    if column !in df.columns then Failure(KeyError(column))
    else
      var cells := seq(|df.rows|, i requires 0 <= i < |df.rows| => Get(df.rows[i], column));
      var values := Text.SortedUnique(TextValues(cells));
      assert ([All] + values)[1..] == values;
      forall v ensures Text(v) in cells <==>
                       exists i :: 0 <= i < |df.rows| && Get(df.rows[i], column) == Text(v) {
        if Text(v) in cells {
          var i :| 0 <= i < |cells| && cells[i] == Text(v);
          assert Get(df.rows[i], column) == Text(v);
        }
        if exists i :: 0 <= i < |df.rows| && Get(df.rows[i], column) == Text(v) {
          var i :| 0 <= i < |df.rows| && Get(df.rows[i], column) == Text(v);
          assert cells[i] == Text(v);
        }
      }
      Success([All] + values)
  }
}
