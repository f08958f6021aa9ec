/**
  The filter engine shared by both search pages. A filter is a list of
  clauses; the source applies them one boolean mask at a time
  (`df = df[mask]`), which `Narrow` models. The single-pass filter by the
  conjunction of all clauses is `Keep`; the lemmas show the two agree and
  establish what `Keep` keeps: exactly the rows that satisfy every clause,
  in their original order.
 */
module Filter {
  import opened Wrappers
  import opened Table
  import Text
  import Options

  /** One boolean mask of the filter chain. */
  datatype Clause =
    | Equals(column: Column, value: string)   // `df[column] == value`
    | TuitionWithin(low: int, high: int)      // tuition present and `low <= tuition <= high`
    | Mentions(query: string)                 // name OR speciality contains `query`, ignoring case

  /** `series.str.contains(query, case=False, na=False)` on one cell: non-text cells never match. */
  predicate TextMatches(c: Cell, query: string)
  {
    c.Text? && Text.ContainsIgnoringCase(c.text, query)
  }

  /**
    A cell matches a query exactly when it is text and some window of its
    lower-cased text equals the lower-cased query; a missing or numeric cell
    never matches (`na=False`).
   */
  lemma TextMatchesMeaning(c: Cell, query: string)
    ensures TextMatches(c, query) <==>
              c.Text? && exists i :: Text.OccursAt(Text.Lower(c.text), Text.Lower(query), i)
    ensures !c.Text? ==> !TextMatches(c, query)
  {
    if c.Text? {
      Text.ContainsIgnoringCaseMeaning(c.text, query);
    }
  }

  /** A select-box choice: `s` equals `v` as text, or `v` is `'All'` and constrains nothing. */
  predicate Chosen(s: Cell, v: string)
  {
    v == Options.All || s == Text(v)
  }

  /** Whether row `r` passes mask `c`. A NaN compares unequal to everything and fails every range test. */
  predicate Holds(r: Row, c: Clause)
  {
    match c
    case Equals(col, v) => Get(r, col) == Text(v)
    case TuitionWithin(lo, hi) => r.tuitionPrice.Number? && lo <= r.tuitionPrice.value <= hi
    case Mentions(q) => TextMatches(r.universityName, q) || TextMatches(r.speciality, q)
  }

  /** The columns the code indexes to build mask `c`, in indexing order. */
  function ClauseColumns(c: Clause): seq<Column>
  {
    match c
    case Equals(col, _) => [col]
    case TuitionWithin(_, _) => [TuitionPrice]
    case Mentions(_) => [UniversityName, Speciality]
  }

  /** `r` passes every clause of `cs`. */
  predicate Satisfies(r: Row, cs: seq<Clause>)
    decreases |cs|
  {
    cs == [] || (Holds(r, cs[0]) && Satisfies(r, cs[1..]))
  }

  /** Passing the chain means passing each clause of it. */
  lemma {:induction false} SatisfiesEach(r: Row, cs: seq<Clause>)
    ensures Satisfies(r, cs) <==> forall c :: c in cs ==> Holds(r, c)
    decreases |cs|
  {
    if cs != [] {
      SatisfiesEach(r, cs[1..]);
      assert forall c :: c in cs <==> c == cs[0] || c in cs[1..] by {
        assert cs == [cs[0]] + cs[1..];
      }
    }
  }

  /** Some clause of `cs` indexes a column that `columns` lacks. */
  predicate Unindexable(cs: seq<Clause>, columns: set<Column>)
  {
    exists k, c :: 0 <= k < |cs| && c in ClauseColumns(cs[k]) && c !in columns
  }

  /** The clause `c` when `active`, no clause otherwise: one `if ...: df = df[mask]` of the chain. */
  function Guard(active: bool, c: Clause): seq<Clause>
  {
    if active then [c] else []
  }

  lemma SatisfiesAppend(r: Row, a: seq<Clause>, b: seq<Clause>)
    ensures Satisfies(r, a + b) <==> Satisfies(r, a) && Satisfies(r, b)
  {
    SatisfiesEach(r, a + b);
    SatisfiesEach(r, a);
    SatisfiesEach(r, b);
  }

  lemma SatisfiesSingle(r: Row, c: Clause)
    ensures Satisfies(r, [c]) <==> Holds(r, c)
  {
    assert [c][0] == c;
  }

  lemma SatisfiesGuard(r: Row, active: bool, c: Clause)
    ensures Satisfies(r, Guard(active, c)) <==> (active ==> Holds(r, c))
  {
    if active {
      SatisfiesSingle(r, c);
    }
  }

  lemma UnindexableAppend(a: seq<Clause>, b: seq<Clause>, columns: set<Column>)
    ensures Unindexable(a + b, columns) <==> Unindexable(a, columns) || Unindexable(b, columns)
  {
    assert forall k :: 0 <= k < |a| ==> (a + b)[k] == a[k];
    assert forall k :: 0 <= k < |b| ==> (a + b)[|a| + k] == b[k];
    if Unindexable(a + b, columns) {
      var k, c :| 0 <= k < |a + b| && c in ClauseColumns((a + b)[k]) && c !in columns;
      if k >= |a| {
        assert (a + b)[k] == b[k - |a|];
      }
    }
    if Unindexable(b, columns) {
      var k, c :| 0 <= k < |b| && c in ClauseColumns(b[k]) && c !in columns;
      assert (a + b)[|a| + k] == b[k];
    }
  }

  lemma UnindexableSingle(c: Clause, columns: set<Column>)
    ensures Unindexable([c], columns) <==> exists col :: col in ClauseColumns(c) && col !in columns
  {
    if exists col :: col in ClauseColumns(c) && col !in columns {
      var col :| col in ClauseColumns(c) && col !in columns;
      assert [c][0] == c;
    }
  }

  /** An active category mask fails exactly when its column is absent. */
  lemma UnindexableEquals(active: bool, col: Column, v: string, columns: set<Column>)
    ensures Unindexable(Guard(active, Equals(col, v)), columns) <==> active && col !in columns
  {
    if active {
      UnindexableSingle(Equals(col, v), columns);
    }
  }

  /** The tuition mask fails exactly when the tuition column is absent. */
  lemma UnindexableTuition(low: int, high: int, columns: set<Column>)
    ensures Unindexable([TuitionWithin(low, high)], columns) <==> TuitionPrice !in columns
  {
    UnindexableSingle(TuitionWithin(low, high), columns);
  }

  /** An active search mask fails exactly when the name or the speciality column is absent. */
  lemma UnindexableMentions(active: bool, q: string, columns: set<Column>)
    ensures Unindexable(Guard(active, Mentions(q)), columns) <==>
            active && (UniversityName !in columns || Speciality !in columns)
  {
    if active {
      UnindexableSingle(Mentions(q), columns);
    }
  }

  /** The rows of `rows` that pass every clause of `cs`, in input order. */
  function Keep(rows: seq<Row>, cs: seq<Clause>): (r: seq<Row>)
    ensures |r| <= |rows|
    decreases |rows|
  {
    if rows == [] then []
    else
      var last := rows[|rows| - 1];
      Keep(rows[..|rows| - 1], cs) + (if Satisfies(last, cs) then [last] else [])
  }

  /** Soundness and completeness: the filter keeps a row exactly when the row is in the input and passes. */
  lemma {:induction false} KeepMembers(rows: seq<Row>, cs: seq<Clause>)
    ensures forall x :: x in Keep(rows, cs) <==> x in rows && Satisfies(x, cs)
    decreases |rows|
  {
    if rows != [] {
      var init := rows[..|rows| - 1];
      var last := rows[|rows| - 1];
      assert rows == init + [last];
      KeepMembers(init, cs);
    }
  }

  /** Strictly increasing positions. */
  predicate Increasing(idx: seq<nat>)
  {
    forall a, b :: 0 <= a < b < |idx| ==> idx[a] < idx[b]
  }

  /** The rows of `rows` at positions `idx`, in the order of `idx`. */
  function Pick(rows: seq<Row>, idx: seq<nat>): (r: seq<Row>)
    requires forall k :: 0 <= k < |idx| ==> idx[k] < |rows|
    ensures |r| == |idx|
    ensures forall k :: 0 <= k < |idx| ==> r[k] == rows[idx[k]]
  {
    seq(|idx|, k requires 0 <= k < |idx| => rows[idx[k]])
  }

  /** `a` is an order-preserving subsequence of `b`. */
  ghost predicate IsSubsequence(a: seq<Row>, b: seq<Row>)
  {
    exists idx: seq<nat> ::
      Increasing(idx) && (forall k :: 0 <= k < |idx| ==> idx[k] < |b|) && a == Pick(b, idx)
  }

  /** Reference for a filter's output: the positions whose rows satisfy every clause, ascending. */
  function Positions(rows: seq<Row>, cs: seq<Clause>): (idx: seq<nat>)
    ensures Increasing(idx)
    ensures forall k :: 0 <= k < |idx| ==> idx[k] < |rows|
    ensures forall i :: 0 <= i < |rows| ==> (i in idx <==> Satisfies(rows[i], cs))
    decreases |rows|
  {
    if rows == [] then []
    else
      var n := |rows| - 1;
      var init := Positions(rows[..n], cs);
      assert forall i :: 0 <= i < n ==> rows[..n][i] == rows[i];
      init + (if Satisfies(rows[n], cs) then [n] else [])
  }

  /**
    The filter keeps exactly the rows at `Positions`: soundness,
    completeness, multiplicity and order in one statement.
   */
  lemma {:induction false} KeepIsPick(rows: seq<Row>, cs: seq<Clause>)
    ensures Keep(rows, cs) == Pick(rows, Positions(rows, cs))
    decreases |rows|
  {
    if rows != [] {
      var n := |rows| - 1;
      var init := rows[..n];
      KeepIsPick(init, cs);
      var idx := Positions(init, cs);
      var tailIdx: seq<nat> := if Satisfies(rows[n], cs) then [n] else [];
      var tail := if Satisfies(rows[n], cs) then [rows[n]] else [];
      assert Positions(rows, cs) == idx + tailIdx;
      assert Keep(rows, cs) == Keep(init, cs) + tail;
      PickPrefix(rows, n, idx);
      PickAppend(rows, idx, tailIdx);
      assert Pick(rows, tailIdx) == tail;
    }
  }

  /** Picking positions below `n` reads only the first `n` rows. */
  lemma PickPrefix(rows: seq<Row>, n: nat, idx: seq<nat>)
    requires n <= |rows|
    requires forall k :: 0 <= k < |idx| ==> idx[k] < n
    ensures Pick(rows, idx) == Pick(rows[..n], idx)
  {
  }

  /** Picking two runs of positions is picking each and joining the results. */
  lemma PickAppend(rows: seq<Row>, a: seq<nat>, b: seq<nat>)
    requires forall k :: 0 <= k < |a| ==> a[k] < |rows|
    requires forall k :: 0 <= k < |b| ==> b[k] < |rows|
    ensures Pick(rows, a + b) == Pick(rows, a) + Pick(rows, b)
  {
  }

  /** The filter's output is an order-preserving subsequence of its input. */
  lemma KeepIsSubsequence(rows: seq<Row>, cs: seq<Clause>)
    ensures IsSubsequence(Keep(rows, cs), rows)
  {
    KeepIsPick(rows, cs);
    var idx := Positions(rows, cs);
    assert Increasing(idx) && (forall k :: 0 <= k < |idx| ==> idx[k] < |rows|);
  }

  /** The source's chain: apply the masks one at a time, in list order. */
  function Narrow(rows: seq<Row>, cs: seq<Clause>): seq<Row>
    decreases |cs|
  {
    if cs == [] then rows else Narrow(Keep(rows, [cs[0]]), cs[1..])
  }

  /** Filtering by `a` and then by `b` is filtering once by both. */
  lemma {:induction false} KeepKeep(rows: seq<Row>, a: seq<Clause>, b: seq<Clause>)
    ensures Keep(Keep(rows, a), b) == Keep(rows, a + b)
    decreases |rows|
  {
    if rows != [] {
      var n := |rows| - 1;
      var last := rows[n];
      KeepKeep(rows[..n], a, b);
      var head := Keep(rows[..n], a);
      var tail := if Satisfies(last, a) then [last] else [];
      KeepAppend(head, tail, b);
      SatisfiesAppend(last, a, b);
    }
  }

  /** Filtering distributes over concatenation. */
  lemma {:induction false} KeepAppend(a: seq<Row>, b: seq<Row>, cs: seq<Clause>)
    ensures Keep(a + b, cs) == Keep(a, cs) + Keep(b, cs)
    decreases |b|
  {
    if b == [] {
      assert a + b == a;
    } else {
      var n := |b| - 1;
      assert (a + b)[..|a + b| - 1] == a + b[..n];
      assert (a + b)[|a + b| - 1] == b[n];
      KeepAppend(a, b[..n], cs);
    }
  }

  /** Filtering every sheet and concatenating is filtering the concatenation. */
  lemma {:induction false} KeepFlatten(parts: seq<seq<Row>>, cs: seq<Clause>)
    ensures Keep(Flatten(parts), cs) ==
            Flatten(seq(|parts|, k requires 0 <= k < |parts| => Keep(parts[k], cs)))
    decreases |parts|
  {
    var filtered := seq(|parts|, k requires 0 <= k < |parts| => Keep(parts[k], cs));
    if parts == [] {
    } else {
      KeepFlatten(parts[1..], cs);
      KeepAppend(parts[0], Flatten(parts[1..]), cs);
      assert filtered[1..] == seq(|parts[1..]|, k requires 0 <= k < |parts[1..]| => Keep(parts[1..][k], cs));
    }
  }

  /** Applying the masks one at a time is filtering once by their conjunction. */
  lemma {:induction false} NarrowIsKeep(rows: seq<Row>, cs: seq<Clause>)
    ensures Narrow(rows, cs) == Keep(rows, cs)
    decreases |cs|
  {
    if cs == [] {
      KeepAll(rows, cs);
    } else {
      NarrowIsKeep(Keep(rows, [cs[0]]), cs[1..]);
      KeepKeep(rows, [cs[0]], cs[1..]);
      assert [cs[0]] + cs[1..] == cs;
    }
  }

  /** A filter every row passes returns its input unchanged. */
  lemma {:induction false} KeepAll(rows: seq<Row>, cs: seq<Clause>)
    requires forall i :: 0 <= i < |rows| ==> Satisfies(rows[i], cs)
    ensures Keep(rows, cs) == rows
    decreases |rows|
  {
    if rows != [] {
      var n := |rows| - 1;
      KeepAll(rows[..n], cs);
      assert rows == rows[..n] + [rows[n]];
    }
  }

  /** Only the set of clauses matters, so the order of the masks is irrelevant. */
  lemma {:induction false} KeepSameClauses(rows: seq<Row>, a: seq<Clause>, b: seq<Clause>)
    requires forall c :: c in a <==> c in b
    ensures Keep(rows, a) == Keep(rows, b)
    decreases |rows|
  {
    if rows != [] {
      var n := |rows| - 1;
      KeepSameClauses(rows[..n], a, b);
      SatisfiesEach(rows[n], a);
      SatisfiesEach(rows[n], b);
    }
  }

  /** Filtering a filtered sequence again with the same clauses changes nothing. */
  lemma KeepIdempotent(rows: seq<Row>, cs: seq<Clause>)
    ensures Keep(Keep(rows, cs), cs) == Keep(rows, cs)
  {
    var once := Keep(rows, cs);
    KeepMembers(rows, cs);
    forall i | 0 <= i < |once| ensures Satisfies(once[i], cs) {
      assert once[i] in once;
    }
    KeepAll(once, cs);
  }

  /**
    The chain as the code runs it on a frame: each mask first indexes its
    columns, and a missing column raises `KeyError`.
   */
  function NarrowChecked(fr: Frame, cs: seq<Clause>): (r: Result<Frame, LoadError>)
    ensures r.Failure? <==> Unindexable(cs, fr.columns)
    ensures r.Failure? ==> r.error.KeyError? && r.error.column !in fr.columns
    ensures r.Success? ==> r.value.columns == fr.columns && r.value.rows == Keep(fr.rows, cs)
    decreases |cs|
  {
    if cs == [] then
      NarrowIsKeep(fr.rows, cs);
      Success(fr)
    else
      match FirstMissing(ClauseColumns(cs[0]), fr.columns)
      case Some(c) =>
        assert c in ClauseColumns(cs[0]);
        assert Unindexable(cs, fr.columns);
        Failure(KeyError(c))
      case None =>
        var next := Frame(fr.columns, Keep(fr.rows, [cs[0]]));
        var r := NarrowChecked(next, cs[1..]);
        assert cs == [cs[0]] + cs[1..];
        UnindexableAppend([cs[0]], cs[1..], fr.columns);
        UnindexableSingle(cs[0], fr.columns);
        NarrowIsKeep(fr.rows, cs);
        NarrowIsKeep(next.rows, cs[1..]);
        r
  }
}
