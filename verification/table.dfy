/**
  The shape of the spreadsheet data: the columns the search pages read,
  the cells a worksheet yields, one program record per row, and the frames
  (a column set plus rows) that pandas builds from worksheets.
 */
module Table {
  import opened Wrappers
  import Numeric

  /** The columns the filter-and-paginate query reads; presentation-only columns are not modelled. */
  datatype Column =
    | UniversityName
    | Speciality
    | Major
    | Country
    | Level
    | Field
    | Spec
    | InstitutionType
    | TuitionPrice
    | ApplicationFeePrice

  /**
    One spreadsheet cell: a number, a piece of text, or missing (`Null`
    stands for pandas' NaN, including the NaN that fills a column a sheet
    does not have once sheets are concatenated).
   */
  datatype Cell = Number(value: int) | Text(text: string) | Null

  /** One program offering. */
  datatype Row = Row(
    universityName: Cell,
    speciality: Cell,
    major: Cell,
    country: Cell,
    level: Cell,
    field: Cell,
    spec: Cell,
    institutionType: Cell,
    tuitionPrice: Cell,
    applicationFeePrice: Cell)

  /** The cell of `r` under column `c` (pandas' `df[c]` for one row). */
  function Get(r: Row, c: Column): Cell
  {
    match c
    case UniversityName => r.universityName
    case Speciality => r.speciality
    case Major => r.major
    case Country => r.country
    case Level => r.level
    case Field => r.field
    case Spec => r.spec
    case InstitutionType => r.institutionType
    case TuitionPrice => r.tuitionPrice
    case ApplicationFeePrice => r.applicationFeePrice
  }

  /** A worksheet as `get_all_records` returns it: its header and its data rows. */
  datatype Sheet = Sheet(header: set<Column>, rows: seq<Row>)

  /** A data frame: the columns it has and its rows in order. */
  datatype Frame = Frame(columns: set<Column>, rows: seq<Row>)

  /** The cell `x` of column `c` when the frame has `c`, missing otherwise. */
  function Only(c: Column, columns: set<Column>, x: Cell): Cell
  {
    if c in columns then x else Null
  }

  /** `r` with every cell outside `columns` missing. */
  function Restrict(r: Row, columns: set<Column>): (o: Row)
    ensures forall c :: Get(o, c) == (if c in columns then Get(r, c) else Null)
  {
    Row(
      Only(UniversityName, columns, r.universityName),
      Only(Speciality, columns, r.speciality),
      Only(Major, columns, r.major),
      Only(Country, columns, r.country),
      Only(Level, columns, r.level),
      Only(Field, columns, r.field),
      Only(Spec, columns, r.spec),
      Only(InstitutionType, columns, r.institutionType),
      Only(TuitionPrice, columns, r.tuitionPrice),
      Only(ApplicationFeePrice, columns, r.applicationFeePrice))
  }

  /** Every cell under a column the frame lacks is missing, as `pd.concat` leaves it. */
  predicate WellFormed(fr: Frame)
  {
    forall i, c :: 0 <= i < |fr.rows| && c !in fr.columns ==> Get(fr.rows[i], c) == Null
  }

  /**
    The frame `pd.DataFrame(records)` builds: the header keys are its columns,
    except that a sheet with no records has no columns at all. A record holds
    only header keys, so a row has no value under any other column.
   */
  function SheetFrame(sh: Sheet): (fr: Frame)
    ensures fr.columns <= sh.header
    ensures sh.rows != [] ==> fr.columns == sh.header
    ensures fr.columns == {} <==> sh.rows == [] || sh.header == {}
    ensures |fr.rows| == |sh.rows|
    ensures forall i, c :: 0 <= i < |sh.rows| ==>
              Get(fr.rows[i], c) == (if c in sh.header then Get(sh.rows[i], c) else Null)
    ensures WellFormed(fr)
  {
    var columns := if sh.rows == [] then {} else sh.header;
    Frame(columns, seq(|sh.rows|, i requires 0 <= i < |sh.rows| => Restrict(sh.rows[i], sh.header)))
  }

  /** The rows of all sheets, one after another. */
  function Flatten(parts: seq<seq<Row>>): seq<Row>
  {
    if parts == [] then [] else parts[0] + Flatten(parts[1..])
  }

  /** A row is in the concatenation exactly when it is in one of the parts. */
  lemma {:induction false} FlattenMembers(parts: seq<seq<Row>>)
    ensures forall x :: x in Flatten(parts) <==> exists k :: 0 <= k < |parts| && x in parts[k]
  {
    if parts != [] {
      FlattenMembers(parts[1..]);
      assert forall k :: 0 < k < |parts| ==> parts[k] == parts[1..][k - 1];
    }
  }

  lemma FlattenAppend(a: seq<seq<Row>>, b: seq<seq<Row>>)
    ensures Flatten(a + b) == Flatten(a) + Flatten(b)
  {
    if a == [] {
      assert a + b == b;
    } else {
      assert (a + b)[0] == a[0] && (a + b)[1..] == a[1..] + b;
      FlattenAppend(a[1..], b);
    }
  }

  /** The rows of every sheet's frame, sheet by sheet. */
  function SheetRows(sheets: seq<Sheet>): (parts: seq<seq<Row>>)
    ensures |parts| == |sheets|
    ensures forall k :: 0 <= k < |sheets| ==> parts[k] == SheetFrame(sheets[k]).rows
  {
    seq(|sheets|, k requires 0 <= k < |sheets| => SheetFrame(sheets[k]).rows)
  }

  /** The rows `pd.concat` of all sheets yields, in sheet order. */
  function AllRows(sheets: seq<Sheet>): seq<Row>
  {
    Flatten(SheetRows(sheets))
  }

  /** Every concatenated row is a row of some sheet's frame, and every such row is concatenated. */
  lemma AllRowsMembers(sheets: seq<Sheet>)
    ensures forall x :: x in AllRows(sheets) <==>
              exists k :: 0 <= k < |sheets| && x in SheetFrame(sheets[k]).rows
  {
    FlattenMembers(SheetRows(sheets));
  }

  /** A row of a frame that lacks column `c` is missing under `c`. */
  lemma MissingOutsideColumns(fr: Frame, x: Row, c: Column)
    requires WellFormed(fr) && x in fr.rows && c !in fr.columns
    ensures Get(x, c) == Null
  {
    var j :| 0 <= j < |fr.rows| && fr.rows[j] == x;
  }

  /** The concatenation is missing under every column that no sheet has. */
  lemma AllRowsWellFormed(sheets: seq<Sheet>)
    ensures WellFormed(Frame(UnionColumns(sheets), AllRows(sheets)))
  {
    var rows := AllRows(sheets);
    AllRowsMembers(sheets);
    forall i, c | 0 <= i < |rows| && c !in UnionColumns(sheets)
      ensures Get(rows[i], c) == Null
    {
      assert rows[i] in rows;
      var k :| 0 <= k < |sheets| && rows[i] in SheetFrame(sheets[k]).rows;
      MissingOutsideColumns(SheetFrame(sheets[k]), rows[i], c);
    }
  }

  /** A present cell of the concatenation comes from a sheet whose frame has that column. */
  lemma PresentCellsComeFromTheirSheet(sheets: seq<Sheet>, i: int, c: Column)
    requires 0 <= i < |AllRows(sheets)| && !Get(AllRows(sheets)[i], c).Null?
    ensures exists k :: 0 <= k < |sheets| && AllRows(sheets)[i] in SheetFrame(sheets[k]).rows &&
                        c in SheetFrame(sheets[k]).columns
  {
    var rows := AllRows(sheets);
    AllRowsMembers(sheets);
    assert rows[i] in rows;
    var k :| 0 <= k < |sheets| && rows[i] in SheetFrame(sheets[k]).rows;
    if c !in SheetFrame(sheets[k]).columns {
      MissingOutsideColumns(SheetFrame(sheets[k]), rows[i], c);
    }
  }

  /** The columns of the concatenated frame: every column some sheet's frame has. */
  function UnionColumns(sheets: seq<Sheet>): (cols: set<Column>)
    ensures forall c :: c in cols <==> exists k :: 0 <= k < |sheets| && c in SheetFrame(sheets[k]).columns
  {
    if sheets == [] then {}
    else
      var rest := UnionColumns(sheets[1..]);
      assert forall k :: 0 < k < |sheets| ==> sheets[k] == sheets[1..][k - 1];
      SheetFrame(sheets[0]).columns + rest
  }

  /** Errors the source lets escape from loading and filtering. */
  datatype LoadError =
    | KeyError(column: Column)       // a frame lacks a column the code indexes
    | NoObjectsToConcatenate         // `pd.concat` of an empty list
    | CannotConvertNaN               // `int()` of a NaN minimum or maximum

  /** The first column of `needed` that `columns` lacks, in the order the code indexes them. */
  function FirstMissing(needed: seq<Column>, columns: set<Column>): (r: Option<Column>)
    ensures r.None? <==> forall c :: c in needed ==> c in columns
    ensures r.Some? ==> r.value in needed && r.value !in columns
  {
    if needed == [] then None
    else if needed[0] !in columns then Some(needed[0])
    else FirstMissing(needed[1..], columns)
  }

  /**
    `pd.to_numeric(..., errors='coerce')` on one cell: numbers stay, text
    that reads as a number becomes that number, everything else becomes NaN.
   */
  function ToNumeric(c: Cell): (r: Cell)
    ensures !r.Text?
    ensures c.Number? ==> r == c
    ensures c.Null? ==> r.Null?
    ensures c.Text? ==> (r.Number? <==> Numeric.ParseInt(c.text).Some?)
    ensures c.Text? && r.Number? ==> Numeric.ParseInt(c.text) == Some(r.value)
  {
    match c
    case Number(_) => c
    case Null => Null
    case Text(s) =>
      match Numeric.ParseInt(s)
      case Some(n) => Number(n)
      case None => Null
  }

  /** Coercing an already coerced cell changes nothing. */
  lemma ToNumericIdempotent(c: Cell)
    ensures ToNumeric(ToNumeric(c)) == ToNumeric(c)
  {
  }

  /** The text rendering of any number coerces back to that number. */
  lemma ToNumericReadsShownNumbers(n: int)
    ensures ToNumeric(Text(Numeric.ShowInt(n))) == Number(n)
  {
    Numeric.ParseShowRoundTrip(n);
  }

  /**
    No tuition is left as text: the column is what `to_numeric` yields.
    Comparing or taking the minimum of a column that still holds text raises
    `TypeError`, so the filters and the slider bounds need this.
   */
  predicate TuitionCoerced(rows: seq<Row>)
  {
    forall x :: x in rows ==> !x.tuitionPrice.Text?
  }

  /** Coerces the tuition column only (universities.py). */
  function CoerceTuition(rows: seq<Row>): (r: seq<Row>)
    ensures TuitionCoerced(r)
    ensures |r| == |rows|
    ensures forall i :: 0 <= i < |rows| ==>
              !r[i].tuitionPrice.Text? &&
              r[i].tuitionPrice == ToNumeric(rows[i].tuitionPrice) &&
              r[i].(tuitionPrice := rows[i].tuitionPrice) == rows[i] &&
              (rows[i].tuitionPrice.Number? ==> r[i] == rows[i])
  {
    seq(|rows|, i requires 0 <= i < |rows| =>
      rows[i].(tuitionPrice := ToNumeric(rows[i].tuitionPrice)))
  }

  /** Coercing the tuition column of a frame that has it leaves every other column as it was. */
  lemma CoerceTuitionWellFormed(fr: Frame)
    requires WellFormed(fr) && TuitionPrice in fr.columns
    ensures WellFormed(Frame(fr.columns, CoerceTuition(fr.rows)))
  {
    var r := CoerceTuition(fr.rows);
    forall i, c | 0 <= i < |r| && c !in fr.columns
      ensures Get(r[i], c) == Null
    {
      assert r[i].(tuitionPrice := fr.rows[i].tuitionPrice) == fr.rows[i];
      assert Get(r[i], c) == Get(fr.rows[i], c);
    }
  }

  /** Coerces both price columns (pages/universitesall.py). */
  function CoercePrices(rows: seq<Row>): (r: seq<Row>)
    ensures |r| == |rows|
    ensures forall i :: 0 <= i < |rows| ==>
              !r[i].tuitionPrice.Text? && !r[i].applicationFeePrice.Text? &&
              r[i].tuitionPrice == ToNumeric(rows[i].tuitionPrice) &&
              r[i].applicationFeePrice == ToNumeric(rows[i].applicationFeePrice) &&
              r[i].(tuitionPrice := rows[i].tuitionPrice,
                    applicationFeePrice := rows[i].applicationFeePrice) == rows[i] &&
              (rows[i].tuitionPrice.Number? ==> r[i].tuitionPrice == rows[i].tuitionPrice) &&
              (rows[i].applicationFeePrice.Number? ==>
                 r[i].applicationFeePrice == rows[i].applicationFeePrice)
  {
    seq(|rows|, i requires 0 <= i < |rows| =>
      rows[i].(tuitionPrice := ToNumeric(rows[i].tuitionPrice),
               applicationFeePrice := ToNumeric(rows[i].applicationFeePrice)))
  }

  /** Coercion is row by row, so it commutes with concatenation. */
  lemma CoercePricesAppend(a: seq<Row>, b: seq<Row>)
    ensures CoercePrices(a + b) == CoercePrices(a) + CoercePrices(b)
  {
  }
}
