/**
  String helpers the filters rely on: ASCII case folding, literal substring
  search, and the code-point ordering Python's `sorted` uses on `str`.
 */
module Text {

  /** Folds one ASCII upper-case letter to lower case; every other character is unchanged. */
  function LowerChar(c: char): (r: char)
    ensures 'A' <= c <= 'Z' ==> 'a' <= r <= 'z' && r as int - c as int == 32
    ensures !('A' <= c <= 'Z') ==> r == c
  {
    if 'A' <= c <= 'Z' then (c as int + 32) as char else c
  }

  function Lower(s: string): (r: string)
    ensures |r| == |s|
    ensures forall i :: 0 <= i < |s| ==> r[i] == LowerChar(s[i])
  {
    if s == [] then [] else [LowerChar(s[0])] + Lower(s[1..])
  }

  /** Reference meaning of "`sub` occurs in `s`": some window of `s` equals `sub`. */
  ghost predicate OccursAt(s: string, sub: string, i: int)
  {
    0 <= i && i + |sub| <= |s| && s[i..i + |sub|] == sub
  }

  /** Literal substring search, scanning `s` from the left. */
  predicate Contains(s: string, sub: string)
    decreases |s|
  {
    if |sub| <= |s| && s[..|sub|] == sub then true
    else if s == [] then false
    else Contains(s[1..], sub)
  }

  /** `Contains` holds exactly when some window of `s` equals `sub`. */
  lemma {:induction false} ContainsIsOccurrence(s: string, sub: string)
    ensures Contains(s, sub) <==> exists i :: OccursAt(s, sub, i)
    decreases |s|
  {
    if |sub| <= |s| && s[..|sub|] == sub {
      assert OccursAt(s, sub, 0);
    } else if s == [] {
    } else {
      ContainsIsOccurrence(s[1..], sub);
      if exists i :: OccursAt(s[1..], sub, i) {
        var i :| OccursAt(s[1..], sub, i);
        assert s[i + 1..i + 1 + |sub|] == s[1..][i..i + |sub|];
        assert OccursAt(s, sub, i + 1);
      }
      if exists i :: OccursAt(s, sub, i) {
        var i :| OccursAt(s, sub, i);
        if i != 0 {
          assert s[1..][i - 1..i - 1 + |sub|] == s[i..i + |sub|];
          assert OccursAt(s[1..], sub, i - 1);
        }
      }
    }
  }

  /** Case-insensitive literal search: `query` occurs in `s` once both are folded to lower case. */
  predicate ContainsIgnoringCase(s: string, query: string)
  {
    Contains(Lower(s), Lower(query))
  }

  /** Case-insensitive search finds `query` exactly when a window of `s` equals it up to case. */
  lemma ContainsIgnoringCaseMeaning(s: string, query: string)
    ensures ContainsIgnoringCase(s, query) <==>
              exists i :: OccursAt(Lower(s), Lower(query), i)
  {
    assert ContainsIgnoringCase(s, query) == Contains(Lower(s), Lower(query));
    ContainsIsOccurrence(Lower(s), Lower(query));
  }

  /** Lexicographic order on code points, the order Python uses when comparing `str`. */
  predicate Less(a: string, b: string)
    decreases |a|
  {
    if a == [] then b != []
    else if b == [] then false
    else if a[0] == b[0] then Less(a[1..], b[1..])
    else a[0] < b[0]
  }

  lemma {:induction false} LessIrreflexive(a: string)
    ensures !Less(a, a)
    decreases |a|
  {
    if a != [] {
      LessIrreflexive(a[1..]);
    }
  }

  lemma {:induction false} LessTransitive(a: string, b: string, c: string)
    requires Less(a, b) && Less(b, c)
    ensures Less(a, c)
    decreases |a|
  {
    if a != [] && a[0] == b[0] && b[0] == c[0] {
      LessTransitive(a[1..], b[1..], c[1..]);
    }
  }

  lemma {:induction false} LessTotal(a: string, b: string)
    requires a != b
    ensures Less(a, b) || Less(b, a)
    decreases |a|
  {
    if a != [] && b != [] && a[0] == b[0] {
      assert a == [a[0]] + a[1..] && b == [b[0]] + b[1..];
      LessTotal(a[1..], b[1..]);
    }
  }

  /** Strictly ascending, hence also free of duplicates. */
  predicate StrictlySorted(s: seq<string>)
  {
    forall i, j :: 0 <= i < j < |s| ==> Less(s[i], s[j])
  }

  /** Inserts `x` into a strictly sorted list unless it is already there. */
  function Insert(x: string, s: seq<string>): (r: seq<string>)
    requires StrictlySorted(s)
    ensures StrictlySorted(r)
    ensures forall v :: v in r <==> v == x || v in s
    decreases |s|
  {
    if s == [] then [x]
    else if x == s[0] then s
    else if Less(x, s[0]) then
      InsertHeadSorted(x, s);
      [x] + s
    else
      LessTotal(x, s[0]);
      var tail := Insert(x, s[1..]);
      InsertConsSorted(s[0], s[1..], tail, x);
      [s[0]] + tail
  }

  lemma InsertHeadSorted(x: string, s: seq<string>)
    requires StrictlySorted(s) && s != [] && Less(x, s[0])
    ensures StrictlySorted([x] + s)
  {
    forall j | 0 < j < |s| ensures Less(x, s[j]) {
      LessTransitive(x, s[0], s[j]);
    }
  }

  lemma InsertConsSorted(h: string, rest: seq<string>, tail: seq<string>, x: string)
    requires StrictlySorted([h] + rest) && StrictlySorted(tail)
    requires Less(h, x)
    requires forall v :: v in tail <==> v == x || v in rest
    ensures StrictlySorted([h] + tail)
  {
    var s := [h] + rest;
    forall j | 0 <= j < |tail| ensures Less(h, tail[j]) {
      if tail[j] != x {
        assert tail[j] in rest;
        var k :| 0 <= k < |rest| && rest[k] == tail[j];
        assert s[0] == h && s[k + 1] == rest[k];
        assert Less(s[0], s[k + 1]);
      }
    }
  }

  /** The distinct strings of `vs`, strictly ascending: Python's `sorted(set(vs))`. */
  function SortedUnique(vs: seq<string>): (r: seq<string>)
    ensures StrictlySorted(r)
    ensures forall v :: v in r <==> v in vs
  {
    if vs == [] then []
    else
      var rest := SortedUnique(vs[..|vs| - 1]);
      assert forall v :: v in vs <==> v in vs[..|vs| - 1] || v == vs[|vs| - 1] by {
        assert vs == vs[..|vs| - 1] + [vs[|vs| - 1]];
      }
      Insert(vs[|vs| - 1], rest)
  }
}
