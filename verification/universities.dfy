/**
  The main search page (universities.py): all sheets are concatenated and
  the tuition column coerced once, then five category filters, the tuition
  range and the free-text search are applied as one chain of masks.
 */
module Universities {
  import opened Wrappers
  import opened Table
  import opened Filter
  import Options

  /** The arguments of `apply_filters` after the frame. */
  datatype Filters = Filters(
    major: string,
    country: string,
    level: string,
    field: string,
    institutionType: string,
    tuitionMin: int,
    tuitionMax: int,
    searchQuery: string)

  /** What the page promises of a row it shows, field by field. */
  predicate Wanted(r: Row, f: Filters)
  {
    && Chosen(r.major, f.major)
    && Chosen(r.country, f.country)
    && Chosen(r.level, f.level)
    && Chosen(r.field, f.field)
    && Chosen(r.institutionType, f.institutionType)
    && (match r.tuitionPrice
        case Number(t) => f.tuitionMin <= t <= f.tuitionMax
        case _ => false)
    && (f.searchQuery == "" || TextMatches(r.universityName, f.searchQuery) ||
        TextMatches(r.speciality, f.searchQuery))
  }

  /** The five category masks, each present only when its filter is not `'All'`. */
  function CategoryClauses(f: Filters): seq<Clause>
  {
    Guard(f.major != Options.All, Equals(Major, f.major)) +
    Guard(f.country != Options.All, Equals(Country, f.country)) +
    Guard(f.level != Options.All, Equals(Level, f.level)) +
    Guard(f.field != Options.All, Equals(Field, f.field)) +
    Guard(f.institutionType != Options.All, Equals(InstitutionType, f.institutionType))
  }

  /** The masks `apply_filters` builds, in the order it applies them. */
  function Clauses(f: Filters): seq<Clause>
  {
    CategoryClauses(f) +
    [TuitionWithin(f.tuitionMin, f.tuitionMax)] +
    Guard(f.searchQuery != "", Mentions(f.searchQuery))
  }

  /** A column `apply_filters` indexes for `f` is absent from `columns`. */
  predicate LacksColumn(columns: set<Column>, f: Filters)
  {
    || (f.major != Options.All && Major !in columns)
    || (f.country != Options.All && Country !in columns)
    || (f.level != Options.All && Level !in columns)
    || (f.field != Options.All && Field !in columns)
    || (f.institutionType != Options.All && InstitutionType !in columns)
    || TuitionPrice !in columns
    || (f.searchQuery != "" && (UniversityName !in columns || Speciality !in columns))
  }

  /** The category masks pass exactly the rows whose categories match. */
  lemma CategoryClausesMeanChosen(r: Row, f: Filters)
    ensures Satisfies(r, CategoryClauses(f)) <==>
              && Chosen(r.major, f.major)
              && Chosen(r.country, f.country)
              && Chosen(r.level, f.level)
              && Chosen(r.field, f.field)
              && Chosen(r.institutionType, f.institutionType)
  {
    var g1 := Guard(f.major != Options.All, Equals(Major, f.major));
    var g2 := Guard(f.country != Options.All, Equals(Country, f.country));
    var g3 := Guard(f.level != Options.All, Equals(Level, f.level));
    var g4 := Guard(f.field != Options.All, Equals(Field, f.field));
    var g5 := Guard(f.institutionType != Options.All, Equals(InstitutionType, f.institutionType));
    SatisfiesGuard(r, f.major != Options.All, Equals(Major, f.major));
    SatisfiesGuard(r, f.country != Options.All, Equals(Country, f.country));
    SatisfiesGuard(r, f.level != Options.All, Equals(Level, f.level));
    SatisfiesGuard(r, f.field != Options.All, Equals(Field, f.field));
    SatisfiesGuard(r, f.institutionType != Options.All, Equals(InstitutionType, f.institutionType));
    SatisfiesAppend(r, g1, g2);
    SatisfiesAppend(r, g1 + g2, g3);
    SatisfiesAppend(r, g1 + g2 + g3, g4);
    SatisfiesAppend(r, g1 + g2 + g3 + g4, g5);
  }

  /** A row passes the chain of masks exactly when it is wanted. */
  lemma ClausesMeanWanted(r: Row, f: Filters)
    ensures Satisfies(r, Clauses(f)) <==> Wanted(r, f)
  {
    var g6 := [TuitionWithin(f.tuitionMin, f.tuitionMax)];
    var g7 := Guard(f.searchQuery != "", Mentions(f.searchQuery));
    CategoryClausesMeanChosen(r, f);
    SatisfiesSingle(r, TuitionWithin(f.tuitionMin, f.tuitionMax));
    SatisfiesGuard(r, f.searchQuery != "", Mentions(f.searchQuery));
    SatisfiesAppend(r, CategoryClauses(f), g6);
    SatisfiesAppend(r, CategoryClauses(f) + g6, g7);
  }

  /** The chain indexes exactly the columns `LacksColumn` looks at. */
  lemma ClauseColumnsMeanLacks(columns: set<Column>, f: Filters)
    ensures Unindexable(Clauses(f), columns) <==> LacksColumn(columns, f)
  {
    var g1 := Guard(f.major != Options.All, Equals(Major, f.major));
    var g2 := Guard(f.country != Options.All, Equals(Country, f.country));
    var g3 := Guard(f.level != Options.All, Equals(Level, f.level));
    var g4 := Guard(f.field != Options.All, Equals(Field, f.field));
    var g5 := Guard(f.institutionType != Options.All, Equals(InstitutionType, f.institutionType));
    var g6 := [TuitionWithin(f.tuitionMin, f.tuitionMax)];
    var g7 := Guard(f.searchQuery != "", Mentions(f.searchQuery));
    UnindexableEquals(f.major != Options.All, Major, f.major, columns);
    UnindexableEquals(f.country != Options.All, Country, f.country, columns);
    UnindexableEquals(f.level != Options.All, Level, f.level, columns);
    UnindexableEquals(f.field != Options.All, Field, f.field, columns);
    UnindexableEquals(f.institutionType != Options.All, InstitutionType, f.institutionType, columns);
    UnindexableTuition(f.tuitionMin, f.tuitionMax, columns);
    UnindexableMentions(f.searchQuery != "", f.searchQuery, columns);
    UnindexableAppend(g1, g2, columns);
    UnindexableAppend(g1 + g2, g3, columns);
    UnindexableAppend(g1 + g2 + g3, g4, columns);
    UnindexableAppend(g1 + g2 + g3 + g4, g5, columns);
    UnindexableAppend(CategoryClauses(f), g6, columns);
    UnindexableAppend(CategoryClauses(f) + g6, g7, columns);
  }

  /**
    `apply_filters`: a `KeyError` when the frame lacks a column the chain
    indexes; otherwise the frame's columns with exactly the wanted rows.
   */
  function ApplyFilters(df: Frame, f: Filters): (r: Result<Frame, LoadError>)
    requires TuitionCoerced(df.rows)
    ensures r.Failure? <==> LacksColumn(df.columns, f)
    ensures r.Failure? ==> r.error.KeyError? && r.error.column !in df.columns
    ensures r.Success? ==> r.value.columns == df.columns && |r.value.rows| <= |df.rows|
    ensures r.Success? ==> forall x :: x in r.value.rows <==> x in df.rows && Wanted(x, f)
    ensures r.Success? ==> r.value.rows == Keep(df.rows, Clauses(f))
    ensures r.Success? ==> TuitionCoerced(r.value.rows)
  {
    ClauseColumnsMeanLacks(df.columns, f);
    var r := NarrowChecked(df, Clauses(f));
    KeepMembers(df.rows, Clauses(f));
    forall x ensures Satisfies(x, Clauses(f)) <==> Wanted(x, f) {
      ClausesMeanWanted(x, f);
    }
    r
  }

  /**
    The survivors are the wanted rows at their input positions, in input
    order and with their multiplicity: an order-preserving subsequence that is
    sound and complete.
   */
  lemma ApplyFiltersKeepsExactlyWanted(df: Frame, f: Filters)
    requires TuitionCoerced(df.rows) && ApplyFilters(df, f).Success?
    ensures exists idx: seq<nat> ::
              && Increasing(idx)
              && (forall k :: 0 <= k < |idx| ==> idx[k] < |df.rows|)
              && ApplyFilters(df, f).value.rows == Pick(df.rows, idx)
              && (forall i :: 0 <= i < |df.rows| ==> (i in idx <==> Wanted(df.rows[i], f)))
  {
    var idx := WantedPositions(df.rows, f);
    assert ApplyFilters(df, f).value.rows == Pick(df.rows, idx) by {
      assert ApplyFilters(df, f).value.rows == Keep(df.rows, Clauses(f));
    }
  }

  /** The positions the clause chain keeps are exactly those of the wanted rows, in order. */
  lemma WantedPositions(rows: seq<Row>, f: Filters) returns (idx: seq<nat>)
    ensures Increasing(idx)
    ensures forall k :: 0 <= k < |idx| ==> idx[k] < |rows|
    ensures Keep(rows, Clauses(f)) == Pick(rows, idx)
    ensures forall i :: 0 <= i < |rows| ==> (i in idx <==> Wanted(rows[i], f))
  {
    idx := Positions(rows, Clauses(f));
    KeepIsPick(rows, Clauses(f));
    forall i | 0 <= i < |rows| ensures i in idx <==> Wanted(rows[i], f) {
      ClausesMeanWanted(rows[i], f);
    }
  }

  /** Filtering an already filtered frame again with the same arguments changes nothing. */
  lemma ApplyFiltersIdempotent(df: Frame, f: Filters)
    requires TuitionCoerced(df.rows) && ApplyFilters(df, f).Success?
    ensures ApplyFilters(ApplyFilters(df, f).value, f) == ApplyFilters(df, f)
  {
    KeepIdempotent(df.rows, Clauses(f));
  }

  /** Filtering a frame built from two parts is filtering each part and concatenating. */
  lemma ApplyFiltersDistributes(a: seq<Row>, b: seq<Row>, columns: set<Column>, f: Filters)
    requires TuitionCoerced(a) && TuitionCoerced(b) && !LacksColumn(columns, f)
    ensures ApplyFilters(Frame(columns, a + b), f).value.rows ==
            ApplyFilters(Frame(columns, a), f).value.rows + ApplyFilters(Frame(columns, b), f).value.rows
  {
    KeepAppend(a, b, Clauses(f));
  }

  /**
    `load_all_data`: concatenate every sheet in order, then coerce the tuition
    column to numbers (unparsable text becomes missing).
   */
  function LoadAllData(sheets: seq<Sheet>): (r: Result<Frame, LoadError>)
    ensures r.Failure? <==> sheets == [] || TuitionPrice !in UnionColumns(sheets)
    ensures sheets == [] ==> r == Failure(NoObjectsToConcatenate)
    ensures sheets != [] && r.Failure? ==> r == Failure(KeyError(TuitionPrice))
    ensures r.Success? ==> r.value.columns == UnionColumns(sheets)
    ensures r.Success? ==> |r.value.rows| == |AllRows(sheets)|
    ensures r.Success? ==> forall i :: 0 <= i < |r.value.rows| ==>
              && !r.value.rows[i].tuitionPrice.Text?
              && r.value.rows[i].(tuitionPrice := AllRows(sheets)[i].tuitionPrice) == AllRows(sheets)[i]
              && ToNumeric(AllRows(sheets)[i].tuitionPrice) == r.value.rows[i].tuitionPrice
    ensures r.Success? ==> WellFormed(r.value) && TuitionCoerced(r.value.rows)
  {
    if sheets == [] then Failure(NoObjectsToConcatenate)
    else
      var columns := UnionColumns(sheets);
      if TuitionPrice !in columns then Failure(KeyError(TuitionPrice))
      else
        AllRowsWellFormed(sheets);
        CoerceTuitionWellFormed(Frame(columns, AllRows(sheets)));
        Success(Frame(columns, CoerceTuition(AllRows(sheets))))
  }

  /**
    A row that an active `Major` filter keeps comes from a sheet that has a
    `Major` column: the cells `pd.concat` fills for other sheets are NaN and match nothing.
   */
  lemma MajorMatchesComeFromSheetsWithMajor(sheets: seq<Sheet>, f: Filters)
    requires f.major != Options.All
    ensures LoadAllData(sheets).Success? && ApplyFilters(LoadAllData(sheets).value, f).Success? ==>
              forall x :: x in ApplyFilters(LoadAllData(sheets).value, f).value.rows ==>
                exists i, k :: 0 <= i < |AllRows(sheets)| && 0 <= k < |sheets| &&
                  x == LoadAllData(sheets).value.rows[i] &&
                  AllRows(sheets)[i] in SheetFrame(sheets[k]).rows && Major in SheetFrame(sheets[k]).columns
  {
    if LoadAllData(sheets).Success? && ApplyFilters(LoadAllData(sheets).value, f).Success? {
      SurvivorsHaveMajor(sheets, f);
      forall x | x in ApplyFilters(LoadAllData(sheets).value, f).value.rows
        ensures exists i, k :: 0 <= i < |AllRows(sheets)| && 0 <= k < |sheets| &&
                  x == LoadAllData(sheets).value.rows[i] &&
                  AllRows(sheets)[i] in SheetFrame(sheets[k]).rows && Major in SheetFrame(sheets[k]).columns
      {
        LoadedCellsComeFromTheirSheet(sheets, x, Major);
      }
    }
  }

  /**
    A present cell of the loaded frame, outside the coerced tuition column,
    comes from a sheet whose frame has that column.
   */
  lemma LoadedCellsComeFromTheirSheet(sheets: seq<Sheet>, x: Row, c: Column)
    requires LoadAllData(sheets).Success?
    requires x in LoadAllData(sheets).value.rows && c != TuitionPrice && !Get(x, c).Null?
    ensures exists i, k :: 0 <= i < |AllRows(sheets)| && 0 <= k < |sheets| &&
              x == LoadAllData(sheets).value.rows[i] &&
              AllRows(sheets)[i] in SheetFrame(sheets[k]).rows && c in SheetFrame(sheets[k]).columns
  {
    var df := LoadAllData(sheets).value;
    var all := AllRows(sheets);
    var i :| 0 <= i < |df.rows| && df.rows[i] == x;
    assert Get(all[i], c) == Get(x, c) by {
      assert df.rows[i].(tuitionPrice := all[i].tuitionPrice) == all[i];
    }
    PresentCellsComeFromTheirSheet(sheets, i, c);
    var k :| 0 <= k < |sheets| && all[i] in SheetFrame(sheets[k]).rows && c in SheetFrame(sheets[k]).columns;
    assert 0 <= i < |all| && x == df.rows[i];
  }

  /** Every survivor of an active `Major` filter is a row of the loaded frame with that major. */
  lemma SurvivorsHaveMajor(sheets: seq<Sheet>, f: Filters)
    requires f.major != Options.All
    ensures LoadAllData(sheets).Success? && ApplyFilters(LoadAllData(sheets).value, f).Success? ==>
              forall x :: x in ApplyFilters(LoadAllData(sheets).value, f).value.rows ==>
                x in LoadAllData(sheets).value.rows && x.major == Text(f.major)
  {
    if LoadAllData(sheets).Success? && ApplyFilters(LoadAllData(sheets).value, f).Success? {
      forall x | x in ApplyFilters(LoadAllData(sheets).value, f).value.rows
        ensures x in LoadAllData(sheets).value.rows && x.major == Text(f.major)
      {
        assert Wanted(x, f);
      }
    }
  }

  /** The lowest and highest present tuition, if any. */
  function PriceRange(rows: seq<Row>): (r: Option<(int, int)>)
    ensures r.None? <==> forall i :: 0 <= i < |rows| ==> !rows[i].tuitionPrice.Number?
    ensures r.Some? ==> forall i :: 0 <= i < |rows| && rows[i].tuitionPrice.Number? ==>
                          r.value.0 <= rows[i].tuitionPrice.value <= r.value.1
    ensures r.Some? ==> exists i :: 0 <= i < |rows| && rows[i].tuitionPrice == Number(r.value.0)
    ensures r.Some? ==> exists i :: 0 <= i < |rows| && rows[i].tuitionPrice == Number(r.value.1)
    decreases |rows|
  {
    if rows == [] then None
    else
      var n := |rows| - 1;
      var init := rows[..n];
      assert forall i :: 0 <= i < n ==> init[i] == rows[i];
      var rest := PriceRange(init);
      match rows[n].tuitionPrice
      case Number(t) =>
        (match rest
         case None => Some((t, t))
         case Some((lo, hi)) => Some((if t < lo then t else lo, if t > hi then t else hi)))
      case _ => rest
  }

  /**
    The slider's initial range `int(min)`, `int(max)` of the tuition column;
    with no present tuition both are NaN and `int()` raises.
   */
  function TuitionBounds(rows: seq<Row>): (r: Result<(int, int), LoadError>)
    requires TuitionCoerced(rows)
    ensures r.Failure? <==> forall i :: 0 <= i < |rows| ==> !rows[i].tuitionPrice.Number?
    ensures r.Failure? ==> r.error == CannotConvertNaN
    ensures r.Success? ==> r.value.0 <= r.value.1
    ensures r.Success? ==> forall i :: 0 <= i < |rows| && rows[i].tuitionPrice.Number? ==>
                             r.value.0 <= rows[i].tuitionPrice.value <= r.value.1
    ensures r.Success? ==> exists i :: 0 <= i < |rows| && rows[i].tuitionPrice == Number(r.value.0)
    ensures r.Success? ==> exists i :: 0 <= i < |rows| && rows[i].tuitionPrice == Number(r.value.1)
  {
    match PriceRange(rows)
    case None => Failure(CannotConvertNaN)
    case Some(range) => Success(range)
  }

  /** The filters a fresh session starts with: every category `'All'`, the observed range, no search. */
  function InitialFilters(lo: int, hi: int): Filters
  {
    Filters(Options.All, Options.All, Options.All, Options.All, Options.All, lo, hi, "")
  }

  /**
    With the initial filters the chain drops only the rows without a
    tuition, so a frame whose every row has one comes back unchanged.
   */
  lemma InitialFiltersKeepPricedRows(df: Frame)
    requires TuitionCoerced(df.rows) && TuitionPrice in df.columns
    requires TuitionBounds(df.rows).Success?
    ensures var f := InitialFilters(TuitionBounds(df.rows).value.0, TuitionBounds(df.rows).value.1);
            && ApplyFilters(df, f).Success?
            && (forall x :: x in ApplyFilters(df, f).value.rows <==> x in df.rows && x.tuitionPrice.Number?)
            && ((forall i :: 0 <= i < |df.rows| ==> df.rows[i].tuitionPrice.Number?) ==>
                  ApplyFilters(df, f).value.rows == df.rows)
  {
    var f := InitialFilters(TuitionBounds(df.rows).value.0, TuitionBounds(df.rows).value.1);
    assert !LacksColumn(df.columns, f);
    forall i | 0 <= i < |df.rows| ensures Wanted(df.rows[i], f) <==> df.rows[i].tuitionPrice.Number? {
    }
    forall x | x in df.rows ensures Wanted(x, f) <==> x.tuitionPrice.Number? {
      var i :| 0 <= i < |df.rows| && df.rows[i] == x;
    }
    if forall i :: 0 <= i < |df.rows| ==> df.rows[i].tuitionPrice.Number? {
      forall i | 0 <= i < |df.rows| ensures Satisfies(df.rows[i], Clauses(f)) {
        ClausesMeanWanted(df.rows[i], f);
      }
      KeepAll(df.rows, Clauses(f));
    }
  }
}
