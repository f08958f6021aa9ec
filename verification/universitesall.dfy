/**
  The all-sheets search page (pages/universitesall.py): every sheet is
  coerced and filtered on its own, the filtered sheets are concatenated in
  sheet order, and the result is capped at 10,000 rows by a fixed-seed
  sample. It has a `Spec` filter and no free-text search.
 */
module UniversitesAll {
  import opened Wrappers
  import opened Table
  import opened Filter
  import Options
  import Sampling

  /** The filter arguments of `load_filtered_data`, in its parameter order. */
  datatype SheetFilters = SheetFilters(
    major: string,
    country: string,
    level: string,
    field: string,
    specialty: string,
    institutionType: string,
    tuitionMin: int,
    tuitionMax: int)

  /** What the loader promises of every row it returns, field by field. */
  predicate Wanted(r: Row, f: SheetFilters)
  {
    && Chosen(r.major, f.major)
    && Chosen(r.country, f.country)
    && Chosen(r.level, f.level)
    && Chosen(r.field, f.field)
    && Chosen(r.spec, f.specialty)
    && Chosen(r.institutionType, f.institutionType)
    && (match r.tuitionPrice
        case Number(t) => f.tuitionMin <= t <= f.tuitionMax
        case _ => false)
  }

  /** The six category masks, each present only when its filter is not `'All'`. */
  function CategoryClauses(f: SheetFilters): seq<Clause>
  {
    Guard(f.major != Options.All, Equals(Major, f.major)) +
    Guard(f.country != Options.All, Equals(Country, f.country)) +
    Guard(f.level != Options.All, Equals(Level, f.level)) +
    Guard(f.field != Options.All, Equals(Field, f.field)) +
    Guard(f.specialty != Options.All, Equals(Spec, f.specialty)) +
    Guard(f.institutionType != Options.All, Equals(InstitutionType, f.institutionType))
  }

  /** The masks applied to each sheet, in order. */
  function Clauses(f: SheetFilters): seq<Clause>
  {
    CategoryClauses(f) + [TuitionWithin(f.tuitionMin, f.tuitionMax)]
  }

  /** A column the loader indexes in one sheet is absent from that sheet's frame. */
  predicate LacksColumn(columns: set<Column>, f: SheetFilters)
  {
    || TuitionPrice !in columns
    || ApplicationFeePrice !in columns
    || (f.major != Options.All && Major !in columns)
    || (f.country != Options.All && Country !in columns)
    || (f.level != Options.All && Level !in columns)
    || (f.field != Options.All && Field !in columns)
    || (f.specialty != Options.All && Spec !in columns)
    || (f.institutionType != Options.All && InstitutionType !in columns)
  }

  /** The category masks pass exactly the rows whose categories match. */
  lemma CategoryClausesMeanChosen(r: Row, f: SheetFilters)
    ensures Satisfies(r, CategoryClauses(f)) <==>
              && Chosen(r.major, f.major)
              && Chosen(r.country, f.country)
              && Chosen(r.level, f.level)
              && Chosen(r.field, f.field)
              && Chosen(r.spec, f.specialty)
              && Chosen(r.institutionType, f.institutionType)
  {
    var g1 := Guard(f.major != Options.All, Equals(Major, f.major));
    var g2 := Guard(f.country != Options.All, Equals(Country, f.country));
    var g3 := Guard(f.level != Options.All, Equals(Level, f.level));
    var g4 := Guard(f.field != Options.All, Equals(Field, f.field));
    var g5 := Guard(f.specialty != Options.All, Equals(Spec, f.specialty));
    var g6 := Guard(f.institutionType != Options.All, Equals(InstitutionType, f.institutionType));
    SatisfiesGuard(r, f.major != Options.All, Equals(Major, f.major));
    SatisfiesGuard(r, f.country != Options.All, Equals(Country, f.country));
    SatisfiesGuard(r, f.level != Options.All, Equals(Level, f.level));
    SatisfiesGuard(r, f.field != Options.All, Equals(Field, f.field));
    SatisfiesGuard(r, f.specialty != Options.All, Equals(Spec, f.specialty));
    SatisfiesGuard(r, f.institutionType != Options.All, Equals(InstitutionType, f.institutionType));
    SatisfiesAppend(r, g1, g2);
    SatisfiesAppend(r, g1 + g2, g3);
    SatisfiesAppend(r, g1 + g2 + g3, g4);
    SatisfiesAppend(r, g1 + g2 + g3 + g4, g5);
    SatisfiesAppend(r, g1 + g2 + g3 + g4 + g5, g6);
  }

  /** A row passes the per-sheet masks exactly when it is wanted. */
  lemma ClausesMeanWanted(r: Row, f: SheetFilters)
    ensures Satisfies(r, Clauses(f)) <==> Wanted(r, f)
  {
    CategoryClausesMeanChosen(r, f);
    SatisfiesSingle(r, TuitionWithin(f.tuitionMin, f.tuitionMax));
    SatisfiesAppend(r, CategoryClauses(f), [TuitionWithin(f.tuitionMin, f.tuitionMax)]);
  }

  /** Apart from the two price columns coerced first, the masks index exactly the other columns `LacksColumn` looks at. */
  lemma ClauseColumnsMeanLacks(columns: set<Column>, f: SheetFilters)
    requires TuitionPrice in columns && ApplicationFeePrice in columns
    ensures Unindexable(Clauses(f), columns) <==> LacksColumn(columns, f)
  {
    var g1 := Guard(f.major != Options.All, Equals(Major, f.major));
    var g2 := Guard(f.country != Options.All, Equals(Country, f.country));
    var g3 := Guard(f.level != Options.All, Equals(Level, f.level));
    var g4 := Guard(f.field != Options.All, Equals(Field, f.field));
    var g5 := Guard(f.specialty != Options.All, Equals(Spec, f.specialty));
    var g6 := Guard(f.institutionType != Options.All, Equals(InstitutionType, f.institutionType));
    var g7 := [TuitionWithin(f.tuitionMin, f.tuitionMax)];
    UnindexableEquals(f.major != Options.All, Major, f.major, columns);
    UnindexableEquals(f.country != Options.All, Country, f.country, columns);
    UnindexableEquals(f.level != Options.All, Level, f.level, columns);
    UnindexableEquals(f.field != Options.All, Field, f.field, columns);
    UnindexableEquals(f.specialty != Options.All, Spec, f.specialty, columns);
    UnindexableEquals(f.institutionType != Options.All, InstitutionType, f.institutionType, columns);
    UnindexableTuition(f.tuitionMin, f.tuitionMax, columns);
    UnindexableAppend(g1, g2, columns);
    UnindexableAppend(g1 + g2, g3, columns);
    UnindexableAppend(g1 + g2 + g3, g4, columns);
    UnindexableAppend(g1 + g2 + g3 + g4, g5, columns);
    UnindexableAppend(g1 + g2 + g3 + g4 + g5, g6, columns);
    UnindexableAppend(CategoryClauses(f), g7, columns);
  }

  /** The sheet's frame lacks a column the loader indexes, so filtering it raises `KeyError`. */
  predicate Broken(sh: Sheet, f: SheetFilters)
  {
    LacksColumn(SheetFrame(sh).columns, f)
  }

  /**
    The loop body for one sheet: build its frame, coerce both price columns
    (unparsable text becomes missing), then apply the masks.
   */
  function FilterSheet(sh: Sheet, f: SheetFilters): (r: Result<seq<Row>, LoadError>)
    ensures r.Failure? <==> Broken(sh, f)
    ensures r.Failure? ==> r.error.KeyError? && r.error.column !in SheetFrame(sh).columns
    ensures r.Success? ==> r.value == Keep(CoercePrices(SheetFrame(sh).rows), Clauses(f))
  {
    var df := SheetFrame(sh);
    if TuitionPrice !in df.columns then Failure(KeyError(TuitionPrice))
    else if ApplicationFeePrice !in df.columns then Failure(KeyError(ApplicationFeePrice))
    else
      ClauseColumnsMeanLacks(df.columns, f);
      var r :- NarrowChecked(Frame(df.columns, CoercePrices(df.rows)), Clauses(f));
      Success(r.rows)
  }

  /** Every sheet filtered in order; the first sheet that fails stops the loop. */
  function FilterSheets(sheets: seq<Sheet>, f: SheetFilters): Result<seq<seq<Row>>, LoadError>
    decreases |sheets|
  {
    if sheets == [] then Success([])
    else
      var head :- FilterSheet(sheets[0], f);
      var tail :- FilterSheets(sheets[1..], f);
      Success([head] + tail)
  }

  /** The loop fails, with a `KeyError`, exactly when some sheet lacks a column it indexes. */
  lemma {:induction false} FilterSheetsFails(sheets: seq<Sheet>, f: SheetFilters)
    ensures FilterSheets(sheets, f).Failure? <==> exists k :: 0 <= k < |sheets| && Broken(sheets[k], f)
    ensures FilterSheets(sheets, f).Failure? ==> FilterSheets(sheets, f).error.KeyError?
    decreases |sheets|
  {
    if sheets != [] {
      FilterSheetsFails(sheets[1..], f);
      if exists k :: 0 <= k < |sheets[1..]| && Broken(sheets[1..][k], f) {
        var k :| 0 <= k < |sheets[1..]| && Broken(sheets[1..][k], f);
        assert Broken(sheets[k + 1], f);
      }
      if exists k :: 0 <= k < |sheets| && Broken(sheets[k], f) {
        var k :| 0 <= k < |sheets| && Broken(sheets[k], f);
        if k > 0 {
          assert sheets[1..][k - 1] == sheets[k];
        }
      }
    }
  }

  /** When no sheet is broken the loop succeeds with one filtered part per sheet, in sheet order. */
  lemma {:induction false} FilterSheetsParts(sheets: seq<Sheet>, f: SheetFilters)
    requires forall k :: 0 <= k < |sheets| ==> !Broken(sheets[k], f)
    ensures FilterSheets(sheets, f).Success?
    ensures |FilterSheets(sheets, f).value| == |sheets|
    ensures forall k :: 0 <= k < |sheets| ==>
              FilterSheets(sheets, f).value[k] == Keep(CoercePrices(SheetFrame(sheets[k]).rows), Clauses(f))
    decreases |sheets|
  {
    FilterSheetsFails(sheets, f);
    if sheets != [] {
      FilterSheetsCons(sheets, f);
      FilterSheetsParts(sheets[1..], f);
      var parts := FilterSheets(sheets, f).value;
      var tail := FilterSheets(sheets[1..], f).value;
      forall k | 0 <= k < |sheets|
        ensures parts[k] == FilterSheet(sheets[k], f).value
      {
        if k > 0 {
          assert parts[k] == tail[k - 1] && sheets[1..][k - 1] == sheets[k];
        }
      }
    }
  }

  /** A successful loop is the first sheet's part followed by the rest of the loop. */
  lemma FilterSheetsCons(sheets: seq<Sheet>, f: SheetFilters)
    requires sheets != [] && FilterSheets(sheets, f).Success?
    ensures FilterSheet(sheets[0], f).Success? && FilterSheets(sheets[1..], f).Success?
    ensures FilterSheets(sheets, f).value ==
              [FilterSheet(sheets[0], f).value] + FilterSheets(sheets[1..], f).value
  {
  }

  /** Reference: the concatenation of all sheets, coerced and filtered in one pass. */
  function FilterConcatenation(sheets: seq<Sheet>, f: SheetFilters): seq<Row>
  {
    Keep(CoercePrices(AllRows(sheets)), Clauses(f))
  }

  /**
    Filtering sheet by sheet and concatenating gives the same rows as
    filtering the concatenation: coercion and filtering both distribute
    over concatenation.
   */
  lemma PerSheetFilteringDistributes(sheets: seq<Sheet>, f: SheetFilters)
    requires forall k :: 0 <= k < |sheets| ==> !Broken(sheets[k], f)
    ensures FilterSheets(sheets, f).Success?
    ensures Flatten(FilterSheets(sheets, f).value) == FilterConcatenation(sheets, f)
  {
    FilterSheetsParts(sheets, f);
    FlattenKept(sheets, FilterSheets(sheets, f).value, Clauses(f));
  }

  /** Sheets filtered one by one, concatenated, equal the concatenation filtered once. */
  lemma {:induction false} FlattenKept(sheets: seq<Sheet>, parts: seq<seq<Row>>, cs: seq<Clause>)
    requires |parts| == |sheets|
    requires forall k :: 0 <= k < |sheets| ==> parts[k] == Keep(CoercePrices(SheetFrame(sheets[k]).rows), cs)
    ensures Flatten(parts) == Keep(CoercePrices(AllRows(sheets)), cs)
    decreases |sheets|
  {
    if sheets == [] {
      assert AllRows(sheets) == [];
    } else {
      var rest := sheets[1..];
      FlattenKept(rest, parts[1..], cs);
      assert SheetRows(sheets) == [SheetFrame(sheets[0]).rows] + SheetRows(rest);
      assert AllRows(sheets) == SheetFrame(sheets[0]).rows + AllRows(rest);
      CoercePricesAppend(SheetFrame(sheets[0]).rows, AllRows(rest));
      KeepAppend(CoercePrices(SheetFrame(sheets[0]).rows), CoercePrices(AllRows(rest)), cs);
    }
  }

  /**
    `load_filtered_data`: per-sheet filtering, `pd.concat` (which refuses an
    empty list of sheets), then the 10,000-row cap.
   */
  function LoadFilteredData(sheets: seq<Sheet>, f: SheetFilters): (r: Result<seq<Row>, LoadError>)
    ensures r.Failure? <==>
              sheets == [] || exists k :: 0 <= k < |sheets| && Broken(sheets[k], f)
    ensures sheets == [] ==> r == Failure(NoObjectsToConcatenate)
    ensures r.Success? ==> r.value == Sampling.Cap(FilterConcatenation(sheets, f))
    ensures r.Success? ==> |r.value| <= Sampling.RowCap
    ensures r.Success? ==> forall x :: x in r.value ==> x in CoercePrices(AllRows(sheets)) && Wanted(x, f)
  {
    FilterSheetsFails(sheets, f);
    var parts :- FilterSheets(sheets, f);
    if sheets == [] then Failure(NoObjectsToConcatenate)
    else
      PerSheetFilteringDistributes(sheets, f);
      var combined := Flatten(parts);
      KeepMembers(CoercePrices(AllRows(sheets)), Clauses(f));
      forall x | x in combined ensures Wanted(x, f) {
        ClausesMeanWanted(x, f);
      }
      Success(Sampling.Cap(combined))
  }

  /**
    Every coerced row of every sheet that meets all the filters is returned
    when the combined result fits under the cap.
   */
  lemma LoadFilteredDataComplete(sheets: seq<Sheet>, f: SheetFilters)
    ensures LoadFilteredData(sheets, f).Success? && |FilterConcatenation(sheets, f)| <= Sampling.RowCap ==>
              forall x :: x in CoercePrices(AllRows(sheets)) && Wanted(x, f) ==> x in LoadFilteredData(sheets, f).value
  {
    KeepMembers(CoercePrices(AllRows(sheets)), Clauses(f));
    forall x | x in CoercePrices(AllRows(sheets)) && Wanted(x, f)
      ensures x in FilterConcatenation(sheets, f)
    {
      ClausesMeanWanted(x, f);
    }
  }
}
