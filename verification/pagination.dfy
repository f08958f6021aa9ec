/**
  Paging of a filtered result: the page count, the rows the card grid
  renders for the current page, and the Previous/Next page counter kept in
  session state. The counter is never clamped against the page count.
 */
module Pagination {

  /** Cards per page on the main search page. */
  const UniversitiesPageSize: nat := 24
  /** Cards per page on the all-sheets search page. */
  const AllSheetsPageSize: nat := 16
  /** Cards per grid row on both pages. */
  const CardsPerRow: nat := 4

  function Min(a: int, b: int): int
  {
    if a <= b then a else b
  }

  function Max(a: int, b: int): int
  {
    if a <= b then b else a
  }

  /** `math.ceil(n / size)`: the fewest pages of `size` rows that hold `n` rows. */
  function TotalPages(n: nat, size: nat): (r: nat)
    requires size > 0
    ensures n <= r * size
    ensures r > 0 ==> (r - 1) * size < n
    ensures r == 0 <==> n == 0
  {
    if n == 0 then 0 else (n - 1) / size + 1
  }

  /** A page count is the only count meeting the ceiling bounds. */
  lemma TotalPagesUnique(n: nat, size: nat, p: nat)
    requires size > 0
    requires n <= p * size && (p > 0 ==> (p - 1) * size < n)
    ensures p == TotalPages(n, size)
  {
  }

  /** Python's `s[a:b]` for non-negative bounds. */
  function Slice<T>(s: seq<T>, a: nat, b: nat): (r: seq<T>)
    ensures |r| == Max(0, Min(b, |s|) - Min(a, |s|))
    ensures forall k :: 0 <= k < |r| ==> r[k] == s[a + k]
  {
    if a >= |s| || b <= a then [] else s[a..Min(b, |s|)]
  }

  /** First row index of page `page` (pages count from 1). */
  function PageStart(page: int, size: nat): nat
    requires page >= 1
  {
    (page - 1) * size
  }

  /**
    The card loop of the main page: `range(0, len(window), 4)` grid rows of
    up to four cards, each card `rows.iloc[start + i + j]`.
   */
  method RenderUniversitiesPage<T>(rows: seq<T>, page: int) returns (shown: seq<T>)
    requires page >= 1
    ensures var start := (page - 1) * UniversitiesPageSize;
            |shown| == (if start < |rows| then Min(UniversitiesPageSize, |rows| - start) else 0)
    ensures forall k :: 0 <= k < |shown| ==>
              shown[k] == rows[(page - 1) * UniversitiesPageSize + k]
  {
    var start := PageStart(page, UniversitiesPageSize);
    var windowLength := |Slice(rows, start, start + UniversitiesPageSize)|;
    shown := [];
    var i := 0;
    while i < windowLength
      invariant 0 <= i <= windowLength + CardsPerRow
      invariant |shown| == Min(i, windowLength)
      invariant forall k :: 0 <= k < |shown| ==> shown[k] == rows[start + k]
    {
      var j := 0;
      while j < CardsPerRow
        invariant 0 <= j <= CardsPerRow
        invariant |shown| == Min(i + j, windowLength)
        invariant forall k :: 0 <= k < |shown| ==> shown[k] == rows[start + k]
      {
        if i + j < windowLength {
          shown := shown + [rows[start + i + j]];
        }
        j := j + 1;
      }
      i := i + CardsPerRow;
    }
  }

  /**
    The card loop of the all-sheets page: the outer loop is bounded by
    `min(16, len(rows) - start)`, the inner test by the window length.
   */
  method RenderAllSheetsPage<T>(rows: seq<T>, page: int) returns (shown: seq<T>)
    requires page >= 1
    ensures var start := (page - 1) * AllSheetsPageSize;
            |shown| == (if start < |rows| then Min(AllSheetsPageSize, |rows| - start) else 0)
    ensures forall k :: 0 <= k < |shown| ==>
              shown[k] == rows[(page - 1) * AllSheetsPageSize + k]
  {
    var start := PageStart(page, AllSheetsPageSize);
    var bound := Min(AllSheetsPageSize, |rows| - start);
    var windowLength := |Slice(rows, start, start + AllSheetsPageSize)|;
    shown := [];
    var i := 0;
    while i < bound
      invariant 0 <= i
      invariant bound > 0 ==> i <= bound + CardsPerRow
      invariant |shown| == Min(i, windowLength)
      invariant forall k :: 0 <= k < |shown| ==> shown[k] == rows[start + k]
    {
      var j := 0;
      while j < CardsPerRow
        invariant 0 <= j <= CardsPerRow
        invariant |shown| == Min(i + j, windowLength)
        invariant forall k :: 0 <= k < |shown| ==> shown[k] == rows[start + k]
      {
        if i + j < windowLength {
          shown := shown + [rows[start + i + j]];
        }
        j := j + 1;
      }
      i := i + CardsPerRow;
    }
  }

  /** "◀ Previous" is offered only past the first page and steps back one page. */
  function Previous(page: int): (r: int)
    ensures page >= 1 ==> r >= 1
    ensures r <= page && page - r <= 1
    ensures r < page <==> page > 1
  {
    if page > 1 then page - 1 else page
  }

  /** "Next ▶" is offered only before the last page and steps forward one page. */
  function Next(page: int, totalPages: nat): (r: int)
    ensures page <= r && r - page <= 1
    ensures r > page <==> page < totalPages
    ensures r <= Max(page, totalPages)
  {
    if page < totalPages then page + 1 else page
  }

  /** Previous undoes a Next that moved. */
  lemma PreviousUndoesNext(page: int, totalPages: nat)
    requires 1 <= page < totalPages
    ensures Previous(Next(page, totalPages)) == page
  {
  }

  /** Next undoes a Previous that moved, when the page it left exists. */
  lemma NextUndoesPrevious(page: int, totalPages: nat)
    requires 1 < page <= totalPages
    ensures Next(Previous(page), totalPages) == page
  {
  }

  /** The session state of the main page: the current page and the search text last applied. */
  datatype Session = Session(page: int, searchQuery: string)

  /** A fresh session starts on page 1 with no search. */
  function Start(): (s: Session)
    ensures s.page == 1 && s.searchQuery == ""
  {
    Session(1, "")
  }

  /**
    One rerun of the main page: submitting the filter form, or typing a
    search text different from the stored one, returns to page 1 and stores
    the text; otherwise the session is untouched.
   */
  function Rerun(s: Session, submitted: bool, searchText: string): (r: Session)
    ensures (submitted || searchText != s.searchQuery) ==> r.page == 1 && r.searchQuery == searchText
    ensures !submitted && searchText == s.searchQuery ==> r == s
  {
    if submitted || searchText != s.searchQuery then Session(1, searchText) else s
  }

  /** What a user can do between two renders. */
  datatype Event =
    | Rerender(submitted: bool, searchText: string)
    | PressPrevious
    | PressNext(totalPages: nat)

  function Step(s: Session, e: Event): Session
  {
    match e
    case Rerender(submitted, text) => Rerun(s, submitted, text)
    case PressPrevious => s.(page := Previous(s.page))
    case PressNext(total) => s.(page := Next(s.page, total))
  }

  function Replay(s: Session, events: seq<Event>): Session
    decreases |events|
  {
    if events == [] then s else Replay(Step(s, events[0]), events[1..])
  }

  /** Whatever the user does, the page counter never drops below 1. */
  lemma {:induction false} ReplayKeepsPagePositive(s: Session, events: seq<Event>)
    requires s.page >= 1
    ensures Replay(s, events).page >= 1
    decreases |events|
  {
    if events != [] {
      ReplayKeepsPagePositive(Step(s, events[0]), events[1..]);
    }
  }

  /** A fresh session stays on a page numbered 1 or more. */
  lemma ReplayFromStart(events: seq<Event>)
    ensures Replay(Start(), events).page >= 1
  {
    ReplayKeepsPagePositive(Start(), events);
  }

  /**
    While the page count stays `total`, a counter on an existing page (or on
    page 1 of an empty result) stays there: Next never passes the last page.
   */
  lemma {:induction false} ReplayStaysInRange(s: Session, events: seq<Event>, total: nat)
    requires 1 <= s.page <= Max(1, total)
    requires forall k :: 0 <= k < |events| && events[k].PressNext? ==> events[k].totalPages == total
    ensures 1 <= Replay(s, events).page <= Max(1, total)
    decreases |events|
  {
    if events != [] {
      ReplayStaysInRange(Step(s, events[0]), events[1..], total);
    }
  }
}
