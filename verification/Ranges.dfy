/** The collector's interval lists. */
module Ranges {

  // Inclusive ID ranges: `_merge` and `_remove`. A list of ranges stands for the set of IDs it
  // contains (`Ids`). Merging may add IDs when more than MAX_RANGES ranges would be needed;
  // RangeMinimality proves that it then adds as few as any cover by that many ranges could.

  const MAX_RANGES: nat := 64

  datatype Range = Range(lower: int, upper: int)

  predicate Within(id: int, r: Range)
  {
    r.lower <= id <= r.upper
  }

  function Span(r: Range): (s: set<int>)
  {
    set id | r.lower <= id < r.upper + 1 && Within(id, r)
  }

  function Ids(rs: seq<Range>): (s: set<int>)
  {
    if rs == [] then {} else Span(rs[0]) + Ids(rs[1..])
  }

  lemma {:induction false} IdsConcat(a: seq<Range>, b: seq<Range>)
    ensures Ids(a + b) == Ids(a) + Ids(b)
  {
    if a == [] {
      assert a + b == b;
    } else {
      IdsConcat(a[1..], b);
      assert (a + b)[1..] == a[1..] + b;
    }
  }

  lemma IdsAppend(rs: seq<Range>, r: Range)
    ensures Ids(rs + [r]) == Ids(rs) + Span(r)
  {
    IdsConcat(rs, [r]);
    assert Ids([r]) == Span(r);
  }

  lemma {:induction false} InIds(rs: seq<Range>, i: nat, id: int)
    requires i < |rs| && Within(id, rs[i])
    ensures id in Ids(rs)
  {
    if i > 0 {
      InIds(rs[1..], i - 1, id);
    }
  }

  lemma {:induction false} HolderOf(rs: seq<Range>, id: int) returns (i: nat)
    requires id in Ids(rs)
    ensures i < |rs| && Within(id, rs[i])
  {
    if id in Span(rs[0]) {
      i := 0;
    } else {
      i := HolderOf(rs[1..], id);
      i := i + 1;
    }
  }

  ghost predicate WellFormed(rs: seq<Range>)
  {
    forall i :: 0 <= i < |rs| ==> rs[i].lower <= rs[i].upper
  }

  predicate Ascending(rs: seq<Range>)
  {
    |rs| < 2 || (rs[0].lower <= rs[1].lower && Ascending(rs[1..]))
  }

  /** Sorted, disjoint and pairwise non-adjacent. */
  predicate Canonical(rs: seq<Range>)
  {
    rs == [] || (
      && rs[0].lower <= rs[0].upper
      && (|rs| > 1 ==> rs[0].upper + 1 < rs[1].lower)
      && Canonical(rs[1..]))
  }

  predicate Apart(a: seq<Range>, b: seq<Range>)
  {
    a != [] && b != [] ==> a[|a| - 1].upper + 1 < b[0].lower
  }

  lemma {:induction false} CanonicalConcat(a: seq<Range>, b: seq<Range>)
    ensures Canonical(a + b) <==> Canonical(a) && Canonical(b) && Apart(a, b)
  {
    if a == [] {
      assert a + b == b;
    } else {
      CanonicalConcat(a[1..], b);
      assert (a + b)[1..] == a[1..] + b;
    }
  }

  lemma {:induction false} CanonicalOrder(rs: seq<Range>, i: nat, j: nat)
    requires Canonical(rs) && i <= j < |rs|
    ensures rs[i].lower <= rs[i].upper && rs[j].lower <= rs[j].upper
    ensures i < j ==> rs[i].upper + 1 < rs[j].lower
  {
    if i > 0 {
      CanonicalOrder(rs[1..], i - 1, j - 1);
    } else if j > 0 {
      CanonicalOrder(rs[1..], 0, j - 1);
    }
  }

  lemma CanonicalIsWellFormed(rs: seq<Range>)
    requires Canonical(rs)
    ensures WellFormed(rs)
  {
    forall i | 0 <= i < |rs| ensures rs[i].lower <= rs[i].upper {
      CanonicalOrder(rs, i, i);
    }
  }

  lemma IdsBounds(rs: seq<Range>, id: int)
    requires Canonical(rs) && id in Ids(rs)
    ensures rs != [] && rs[0].lower <= id <= rs[|rs| - 1].upper
  {
    var i := HolderOf(rs, id);
    CanonicalOrder(rs, 0, i);
    CanonicalOrder(rs, i, |rs| - 1);
  }

  // ---- Sorting (Python's built-in `sorted` on [lower, upper] pairs) ----

  predicate Before(a: Range, b: Range)
  {
    a.lower < b.lower || (a.lower == b.lower && a.upper <= b.upper)
  }

  function Insert(r: Range, rs: seq<Range>): (s: seq<Range>)
  {
    if rs == [] then [r]
    else if Before(r, rs[0]) then [r] + rs
    else [rs[0]] + Insert(r, rs[1..])
  }

  function Sorted(rs: seq<Range>): (s: seq<Range>)
  {
    if rs == [] then [] else Insert(rs[0], Sorted(rs[1..]))
  }

  lemma {:induction false} InsertFacts(r: Range, rs: seq<Range>)
    requires Ascending(rs) && WellFormed(rs) && r.lower <= r.upper
    ensures Ascending(Insert(r, rs)) && WellFormed(Insert(r, rs))
    ensures Ids(Insert(r, rs)) == Span(r) + Ids(rs)
    ensures Insert(r, rs)[0] == r || (rs != [] && Insert(r, rs)[0] == rs[0])
  {
    if rs != [] && !Before(r, rs[0]) {
      InsertFacts(r, rs[1..]);
      assert Insert(r, rs)[1..] == Insert(r, rs[1..]);
    } else {
      assert Insert(r, rs)[1..] == rs;
    }
  }

  lemma {:induction false} SortedFacts(rs: seq<Range>)
    requires WellFormed(rs)
    ensures Ascending(Sorted(rs)) && WellFormed(Sorted(rs))
    ensures Ids(Sorted(rs)) == Ids(rs)
  {
    if rs != [] {
      SortedFacts(rs[1..]);
      InsertFacts(rs[0], Sorted(rs[1..]));
    }
  }

  // ---- Coalescing overlapping and adjacent ranges ----

  function Max(a: int, b: int): int { if a < b then b else a }
  function Min(a: int, b: int): int { if a < b then a else b }

  /** One iteration of the coalescing loop. */
  function Absorb(acc: seq<Range>, r: Range): (s: seq<Range>)
  {
    if acc != [] && r.lower <= acc[|acc| - 1].upper + 1
    then acc[|acc| - 1 := Range(acc[|acc| - 1].lower, Max(r.upper, acc[|acc| - 1].upper))]
    else acc + [r]
  }

  function Coalesced(acc: seq<Range>, rest: seq<Range>): (s: seq<Range>)
    decreases |rest|
  {
    if rest == [] then acc else Coalesced(Absorb(acc, rest[0]), rest[1..])
  }

  lemma AbsorbFacts(acc: seq<Range>, r: Range)
    requires Canonical(acc) && r.lower <= r.upper
    requires acc != [] ==> acc[|acc| - 1].lower <= r.lower
    ensures Canonical(Absorb(acc, r))
    ensures Ids(Absorb(acc, r)) == Ids(acc) + Span(r)
    ensures Absorb(acc, r) != [] && Absorb(acc, r)[|Absorb(acc, r)| - 1].lower <= r.lower
  {
    var n := |acc|;
    if acc != [] && r.lower <= acc[n - 1].upper + 1 {
      var head, last := acc[..n - 1], acc[n - 1];
      var grown := Range(last.lower, Max(r.upper, last.upper));
      assert acc == head + [last];
      assert Absorb(acc, r) == head + [grown];
      CanonicalConcat(head, [last]);
      CanonicalConcat(head, [grown]);
      IdsConcat(head, [last]);
      IdsConcat(head, [grown]);
      assert Span(grown) == Span(last) + Span(r);
    } else {
      assert Canonical([r]) && Apart(acc, [r]);
      CanonicalConcat(acc, [r]);
      IdsConcat(acc, [r]);
    }
  }

  lemma {:induction false} CoalescedFacts(acc: seq<Range>, rest: seq<Range>)
    requires Canonical(acc) && WellFormed(rest) && Ascending(rest)
    requires acc != [] && rest != [] ==> acc[|acc| - 1].lower <= rest[0].lower
    ensures Canonical(Coalesced(acc, rest))
    ensures Ids(Coalesced(acc, rest)) == Ids(acc) + Ids(rest)
    decreases |rest|
  {
    if rest != [] {
      AbsorbFacts(acc, rest[0]);
      CoalescedFacts(Absorb(acc, rest[0]), rest[1..]);
      assert Ids(rest) == Span(rest[0]) + Ids(rest[1..]);
    }
  }

  // ---- Filling the smallest gaps until MAX_RANGES ranges are left ----

  /** Distance compared by the minimum search: one more than the IDs in the gap. */
  function Gap(rs: seq<Range>, i: nat): int
    requires i + 1 < |rs|
  {
    rs[i + 1].lower - rs[i].upper
  }

  /** First index below `n` with the smallest gap, as `min(range(n), key=...)` returns it. */
  function Narrowest(rs: seq<Range>, n: nat): (k: nat)
    requires 1 <= n < |rs|
    ensures k < n
    ensures forall i :: 0 <= i < n ==> Gap(rs, k) <= Gap(rs, i)
    ensures forall i :: 0 <= i < k ==> Gap(rs, k) < Gap(rs, i)
  {
    if n == 1 then 0
    else
      var k := Narrowest(rs, n - 1);
      if Gap(rs, n - 1) < Gap(rs, k) then n - 1 else k
  }

  function FillGap(rs: seq<Range>, i: nat): (s: seq<Range>)
    requires i + 1 < |rs|
    ensures |s| == |rs| - 1
  {
    rs[..i] + ([Range(rs[i].lower, rs[i + 1].upper)] + rs[i + 2..])
  }

  function Compacted(rs: seq<Range>): (s: seq<Range>)
    decreases |rs|
  {
    if |rs| <= MAX_RANGES then rs else Compacted(FillGap(rs, Narrowest(rs, |rs| - 1)))
  }

  function Merged(rs: seq<Range>): (s: seq<Range>)
  {
    Compacted(Coalesced([], Sorted(rs)))
  }

  /** `_merge`: the list edits of the source, proved to compute Merged. */
  method Merge(ranges: seq<Range>) returns (result: seq<Range>)
    ensures result == Merged(ranges)
  {
    result := [];
    var sorted := Sorted(ranges);
    for k := 0 to |sorted|
      invariant Coalesced(result, sorted[k..]) == Coalesced([], sorted)
    {
      var r := sorted[k];
      CoalesceStep(result, sorted, k);
      if result != [] && r.lower <= result[|result| - 1].upper + 1 {
        result := result[|result| - 1 := Range(result[|result| - 1].lower, Max(r.upper, result[|result| - 1].upper))];
      } else {
        result := result + [r];
      }
    }
    assert sorted[|sorted|..] == [];
    result := Compact(result);
  }

  /** The second loop of `_merge`. */
  method Compact(rs: seq<Range>) returns (result: seq<Range>)
    ensures result == Compacted(rs)
  {
    result := rs;
    while |result| > MAX_RANGES
      invariant Compacted(result) == Compacted(rs)
      decreases |result|
    {
      var index := NarrowestGap(result);
      result := result[..index] + ([Range(result[index].lower, result[index + 1].upper)] + result[index + 2..]);
    }
  }

  lemma CoalesceStep(acc: seq<Range>, sorted: seq<Range>, k: nat)
    requires k < |sorted|
    ensures Coalesced(acc, sorted[k..]) == Coalesced(Absorb(acc, sorted[k]), sorted[k + 1..])
  {
    assert sorted[k..][1..] == sorted[k + 1..];
  }

  method NarrowestGap(rs: seq<Range>) returns (index: nat)
    requires |rs| >= 2
    ensures index == Narrowest(rs, |rs| - 1)
  {
    index := 0;
    for i := 1 to |rs| - 1
      invariant index == Narrowest(rs, i)
    {
      if Gap(rs, i) < Gap(rs, index) {
        index := i;
      }
    }
  }

  lemma FillGapEnds(rs: seq<Range>, i: nat)
    requires i + 1 < |rs|
    ensures FillGap(rs, i)[0].lower == rs[0].lower
    ensures FillGap(rs, i)[|rs| - 2].upper == rs[|rs| - 1].upper
  {
  }

  lemma FillGapCanonical(head: seq<Range>, x: Range, y: Range, tail: seq<Range>)
    requires Canonical(head + ([x, y] + tail))
    ensures x.lower <= x.upper && x.upper + 1 < y.lower && y.lower <= y.upper
    ensures Canonical(head + ([Range(x.lower, y.upper)] + tail))
  {
    var glued := Range(x.lower, y.upper);
    CanonicalConcat(head, [x, y] + tail);
    CanonicalConcat([x, y], tail);
    assert [x, y][1..] == [y];
    CanonicalConcat([glued], tail);
    assert ([glued] + tail)[0] == glued;
    CanonicalConcat(head, [glued] + tail);
  }

  lemma FillGapIds(head: seq<Range>, x: Range, y: Range, tail: seq<Range>)
    requires x.lower <= x.upper <= y.lower <= y.upper
    ensures Ids(head + ([x, y] + tail)) <= Ids(head + ([Range(x.lower, y.upper)] + tail))
  {
    var glued := Range(x.lower, y.upper);
    IdsConcat(head, [x, y] + tail);
    IdsConcat([x, y], tail);
    assert [x, y][1..] == [y];
    IdsConcat(head, [glued] + tail);
    IdsConcat([glued], tail);
    assert Span(x) + Span(y) <= Span(glued);
  }

  lemma SplitAtPair(rs: seq<Range>, i: nat)
    requires i + 1 < |rs|
    ensures rs == rs[..i] + ([rs[i], rs[i + 1]] + rs[i + 2..])
  {
  }

  lemma FillGapFacts(rs: seq<Range>, i: nat)
    requires Canonical(rs) && i + 1 < |rs|
    ensures Canonical(FillGap(rs, i))
    ensures Ids(rs) <= Ids(FillGap(rs, i))
  {
    SplitAtPair(rs, i);
    FillGapCanonical(rs[..i], rs[i], rs[i + 1], rs[i + 2..]);
    FillGapIds(rs[..i], rs[i], rs[i + 1], rs[i + 2..]);
  }

  lemma {:induction false} CompactedFacts(rs: seq<Range>)
    requires Canonical(rs)
    ensures Canonical(Compacted(rs)) && |Compacted(rs)| <= MAX_RANGES
    ensures Ids(rs) <= Ids(Compacted(rs))
    ensures rs != [] ==> Compacted(rs) != []
    ensures rs != [] ==> Compacted(rs)[0].lower == rs[0].lower
    ensures rs != [] ==> Compacted(rs)[|Compacted(rs)| - 1].upper == rs[|rs| - 1].upper
    decreases |rs|
  {
    if |rs| > MAX_RANGES {
      var k := Narrowest(rs, |rs| - 1);
      FillGapFacts(rs, k);
      FillGapEnds(rs, k);
      CompactedFacts(FillGap(rs, k));
    }
  }

  /** The list between the two loops: the canonical form of the input's IDs. */
  lemma CoalescedInput(rs: seq<Range>) returns (c: seq<Range>)
    requires WellFormed(rs)
    ensures Canonical(c) && Ids(c) == Ids(rs) && Merged(rs) == Compacted(c)
  {
    SortedFacts(rs);
    CoalescedFacts([], Sorted(rs));
    c := Coalesced([], Sorted(rs));
  }

  /** What `_merge` guarantees its callers: nothing is dropped, the list is
      canonical and short, and no ID outside the span of the input is added. */
  lemma MergedFacts(rs: seq<Range>)
    requires WellFormed(rs)
    ensures Canonical(Merged(rs)) && |Merged(rs)| <= MAX_RANGES
    ensures Ids(rs) <= Ids(Merged(rs))
    ensures rs != [] ==> Merged(rs) != []
    ensures rs != [] ==> Merged(rs)[0].lower in Ids(rs) && Merged(rs)[|Merged(rs)| - 1].upper in Ids(rs)
  {
    var c := CoalescedInput(rs);
    CompactedFacts(c);
    if rs != [] {
      InIds(rs, 0, rs[0].lower);
      assert c != [];
      CanonicalOrder(c, 0, |c| - 1);
      InIds(c, 0, c[0].lower);
      InIds(c, |c| - 1, c[|c| - 1].upper);
    }
  }

  // ---- `_remove` ----

  /** What is left of one range: nothing, one piece, or the two sides of `id`. */
  function Pieces(r: Range, id: int): (s: seq<Range>)
  {
    if !Within(id, r) then [r]
    else (if r.lower < id then [Range(r.lower, id - 1)] else [])
         + (if id < r.upper then [Range(id + 1, r.upper)] else [])
  }

  function Removed(rs: seq<Range>, id: int): (s: seq<Range>)
  {
    if rs == [] then [] else Pieces(rs[0], id) + Removed(rs[1..], id)
  }

  /** `_remove`: the list-building loop, proved to compute Removed. */
  method Remove(ranges: seq<Range>, id: int) returns (result: seq<Range>)
    ensures result == Removed(ranges, id)
  {
    result := [];
    for k := 0 to |ranges|
      invariant result + Removed(ranges[k..], id) == Removed(ranges, id)
    {
      var r := ranges[k];
      RemovedStep(result, ranges, k, id);
      if r.lower <= id <= r.upper {
        if r.lower < id {
          result := result + [Range(r.lower, id - 1)];
        }
        if id < r.upper {
          result := result + [Range(id + 1, r.upper)];
        }
      } else {
        result := result + [r];
      }
    }
  }

  lemma RemovedStep(result: seq<Range>, ranges: seq<Range>, k: nat, id: int)
    requires k < |ranges|
    ensures result + Removed(ranges[k..], id) == (result + Pieces(ranges[k], id)) + Removed(ranges[k + 1..], id)
    ensures var r := ranges[k];
      result + Pieces(r, id) ==
      if !Within(id, r) then result + [r]
      else if r.lower < id then
        if id < r.upper then result + [Range(r.lower, id - 1)] + [Range(id + 1, r.upper)]
        else result + [Range(r.lower, id - 1)]
      else if id < r.upper then result + [Range(id + 1, r.upper)]
      else result
  {
    assert ranges[k..][1..] == ranges[k + 1..];
  }

  lemma {:induction false} RemovedIds(rs: seq<Range>, id: int)
    ensures Ids(Removed(rs, id)) == Ids(rs) - {id}
  {
    if rs != [] {
      RemovedIds(rs[1..], id);
      IdsConcat(Pieces(rs[0], id), Removed(rs[1..], id));
      PiecesIds(rs[0], id);
    }
  }

  lemma PiecesIds(r: Range, id: int)
    ensures Ids(Pieces(r, id)) == Span(r) - {id}
  {
    if Within(id, r) {
      var left := if r.lower < id then [Range(r.lower, id - 1)] else [];
      var right := if id < r.upper then [Range(id + 1, r.upper)] else [];
      IdsConcat(left, right);
    }
  }

  lemma {:induction false} RemovedBefore(rs: seq<Range>, id: int)
    requires Canonical(rs) && (rs != [] ==> id < rs[0].lower)
    ensures Removed(rs, id) == rs
  {
    if rs != [] {
      if |rs| > 1 {
        CanonicalOrder(rs, 0, 1);
      }
      RemovedBefore(rs[1..], id);
    }
  }

  /** `_remove` is exact set subtraction, keeps the list canonical, and can
      lengthen it by one range only. */
  lemma {:induction false} RemovedFacts(rs: seq<Range>, id: int)
    requires Canonical(rs)
    ensures Canonical(Removed(rs, id))
    ensures Ids(Removed(rs, id)) == Ids(rs) - {id}
    ensures |Removed(rs, id)| <= |rs| + 1
    ensures Removed(rs, id) != [] ==> rs != [] && rs[0].lower <= Removed(rs, id)[0].lower
  {
    RemovedIds(rs, id);
    if rs != [] {
      var rest := rs[1..];
      if Within(id, rs[0]) {
        RemovedBefore(rest, id);
        assert Canonical(Pieces(rs[0], id));
        assert Apart(Pieces(rs[0], id), rest);
        CanonicalConcat(Pieces(rs[0], id), rest);
      } else {
        RemovedFacts(rest, id);
        assert Apart([rs[0]], Removed(rest, id));
        CanonicalConcat([rs[0]], Removed(rest, id));
      }
    }
  }

  // ---- Size of a range list ----

  function Total(rs: seq<Range>): (n: int)
  {
    if rs == [] then 0 else rs[0].upper - rs[0].lower + 1 + Total(rs[1..])
  }

  lemma {:induction false} SpanSize(lower: int, upper: int)
    requires lower <= upper + 1
    ensures |Span(Range(lower, upper))| == upper - lower + 1
    decreases upper - lower + 1
  {
    if lower <= upper {
      SpanSize(lower, upper - 1);
      assert Span(Range(lower, upper)) == Span(Range(lower, upper - 1)) + {upper};
    } else {
      assert Span(Range(lower, upper)) == {};
    }
  }

  lemma {:induction false} TotalIsSize(rs: seq<Range>)
    requires Canonical(rs)
    ensures |Ids(rs)| == Total(rs)
  {
    if rs != [] {
      TotalIsSize(rs[1..]);
      SpanSize(rs[0].lower, rs[0].upper);
      assert Span(rs[0]) !! Ids(rs[1..]) by {
        if id :| id in Span(rs[0]) && id in Ids(rs[1..]) {
          var i := HolderOf(rs[1..], id);
          CanonicalOrder(rs, 0, i + 1);
          assert false;
        }
      }
    }
  }
}
