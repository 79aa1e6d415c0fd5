/** Why merging adds the fewest IDs. */
module RangeMinimality {
  import opened Ranges

  // A merge of a canonical list `c` is described by a mask over its gaps: Glue(c, mask) fills
  // exactly the marked ones. The greedy loop ends in a mask whose marked gaps are all at most as
  // wide as its unmarked ones, and any cover by MAX_RANGES ranges has to fill at least as many gaps.

  function Glue(c: seq<Range>, mask: seq<bool>): (g: seq<Range>)
    requires |c| == |mask| + 1
    ensures g != [] && g[0].lower == c[0].lower
  {
    if mask == [] then c
    else
      var g := Glue(c[1..], mask[1..]);
      if mask[0] then [Range(c[0].lower, g[0].upper)] + g[1..] else [c[0]] + g
  }

  function Marked(mask: seq<bool>): (n: nat)
    ensures n <= |mask|
  {
    if mask == [] then 0 else (if mask[0] then 1 else 0) + Marked(mask[1..])
  }

  /** IDs a mask adds. */
  function Cost(c: seq<Range>, mask: seq<bool>): (n: int)
    requires |c| == |mask| + 1
  {
    if mask == [] then 0
    else (if mask[0] then Gap(c, 0) - 1 else 0) + Cost(c[1..], mask[1..])
  }

  /** Position of the k-th unmarked gap. */
  function Unmarked(mask: seq<bool>, k: nat): (p: nat)
    requires k < |mask| - Marked(mask)
    ensures p < |mask| && !mask[p]
  {
    if mask[0] then 1 + Unmarked(mask[1..], k)
    else if k == 0 then 0
    else 1 + Unmarked(mask[1..], k - 1)
  }

  lemma {:induction false} UnmarkedReaches(mask: seq<bool>, p: nat) returns (k: nat)
    requires p < |mask| && !mask[p]
    ensures k < |mask| - Marked(mask) && Unmarked(mask, k) == p
  {
    if p == 0 {
      k := 0;
    } else {
      k := UnmarkedReaches(mask[1..], p - 1);
      if !mask[0] {
        k := k + 1;
      }
    }
  }

  lemma {:induction false} GlueFacts(c: seq<Range>, mask: seq<bool>)
    requires |c| == |mask| + 1 && Canonical(c)
    ensures Canonical(Glue(c, mask))
    ensures |Glue(c, mask)| == |c| - Marked(mask)
    ensures Total(Glue(c, mask)) == Total(c) + Cost(c, mask)
  {
    if mask != [] {
      GlueFacts(c[1..], mask[1..]);
      var g := Glue(c[1..], mask[1..]);
      CanonicalOrder(c, 0, 1);
      CanonicalOrder(g, 0, 0);
      if mask[0] {
        assert Glue(c, mask)[1..] == g[1..];
      } else {
        assert Glue(c, mask)[1..] == g;
      }
    }
  }

  function Stretched(lower: int, g: seq<Range>): (s: seq<Range>)
    requires g != []
  {
    [Range(lower, g[0].upper)] + g[1..]
  }

  lemma FillGapStretched(lower: int, g: seq<Range>, k: nat)
    requires k + 1 < |g|
    ensures FillGap(Stretched(lower, g), k) == Stretched(lower, FillGap(g, k))
  {
    if k == 0 {
    } else {
      assert Stretched(lower, g)[..k] == [Range(lower, g[0].upper)] + g[1..k];
      assert FillGap(g, k)[1..] == g[1..k] + [Range(g[k].lower, g[k + 1].upper)] + g[k + 2..];
    }
  }

  lemma FillGapAfter(x: Range, g: seq<Range>, k: nat)
    requires k + 1 < |g|
    ensures FillGap([x] + g, k + 1) == [x] + FillGap(g, k)
  {
    assert ([x] + g)[..k + 1] == [x] + g[..k];
  }

  /** The k-th gap of a glued list is the k-th unmarked gap of the original. */
  lemma {:induction false} GlueGap(c: seq<Range>, mask: seq<bool>, k: nat)
    requires |c| == |mask| + 1 && k < |mask| - Marked(mask)
    requires |Glue(c, mask)| == |c| - Marked(mask)
    ensures Glue(c, mask)[k].upper == c[Unmarked(mask, k)].upper
    ensures Glue(c, mask)[k + 1].lower == c[Unmarked(mask, k) + 1].lower
  {
    if mask[0] {
      GlueGap(c[1..], mask[1..], k);
    } else if k > 0 {
      GlueGap(c[1..], mask[1..], k - 1);
    }
  }

  /** Filling the k-th gap means marking it. */
  lemma {:induction false} GlueFill(c: seq<Range>, mask: seq<bool>, k: nat)
    requires |c| == |mask| + 1 && k < |mask| - Marked(mask)
    requires |Glue(c, mask)| == |c| - Marked(mask)
    ensures FillGap(Glue(c, mask), k) == Glue(c, mask[Unmarked(mask, k) := true])
  {
    var g := Glue(c[1..], mask[1..]);
    var p := Unmarked(mask, k);
    var marked := mask[p := true];
    if mask[0] {
      assert marked[1..] == mask[1..][p - 1 := true];
      GlueFill(c[1..], mask[1..], k);
      FillGapStretched(c[0].lower, g, k);
    } else if k > 0 {
      assert marked[1..] == mask[1..][p - 1 := true];
      GlueFill(c[1..], mask[1..], k - 1);
      FillGapAfter(c[0], g, k - 1);
    } else {
      assert marked[1..] == mask[1..];
      FillGapAtFront(c[0], g);
    }
  }

  lemma FillGapAtFront(x: Range, g: seq<Range>)
    requires g != []
    ensures FillGap([x] + g, 0) == Stretched(x.lower, g)
  {
  }

  /** Marked gaps are never wider than unmarked ones. */
  ghost predicate NarrowFirst(c: seq<Range>, mask: seq<bool>)
    requires |c| == |mask| + 1
  {
    forall p, q :: 0 <= p < |mask| && 0 <= q < |mask| && mask[p] && !mask[q] ==> Gap(c, p) <= Gap(c, q)
  }

  lemma NarrowestStep(c: seq<Range>, mask: seq<bool>) returns (next: seq<bool>)
    requires |c| == |mask| + 1 && Canonical(c) && NarrowFirst(c, mask)
    requires |Glue(c, mask)| >= 2
    ensures |next| == |mask| && NarrowFirst(c, next) && Marked(next) == Marked(mask) + 1
    ensures FillGap(Glue(c, mask), Narrowest(Glue(c, mask), |Glue(c, mask)| - 1)) == Glue(c, next)
  {
    GlueFacts(c, mask);
    var g := Glue(c, mask);
    var k := Narrowest(g, |g| - 1);
    var p := Unmarked(mask, k);
    next := mask[p := true];
    GlueGap(c, mask, k);
    GlueFill(c, mask, k);
    MarkOne(mask, p);
    forall q | 0 <= q < |mask| && !mask[q] ensures Gap(c, p) <= Gap(c, q) {
      var k' := UnmarkedReaches(mask, q);
      GlueGap(c, mask, k');
      assert Gap(g, k) <= Gap(g, k');
    }
  }

  lemma {:induction false} MarkOne(mask: seq<bool>, p: nat)
    requires p < |mask| && !mask[p]
    ensures Marked(mask[p := true]) == Marked(mask) + 1
  {
    if p == 0 {
      assert mask[p := true][1..] == mask[1..];
    } else {
      MarkOne(mask[1..], p - 1);
      assert mask[p := true][1..] == mask[1..][p - 1 := true];
    }
  }

  /** The greedy loop, seen from the list it started from. */
  lemma {:induction false} GreedyMask(c: seq<Range>, mask: seq<bool>) returns (final: seq<bool>)
    requires |c| == |mask| + 1 && Canonical(c) && NarrowFirst(c, mask)
    ensures |final| == |mask| && NarrowFirst(c, final)
    ensures Compacted(Glue(c, mask)) == Glue(c, final)
    ensures if |Glue(c, mask)| <= MAX_RANGES then final == mask else |Glue(c, final)| == MAX_RANGES
    decreases |Glue(c, mask)|
  {
    if |Glue(c, mask)| <= MAX_RANGES {
      final := mask;
    } else {
      var next := NarrowestStep(c, mask);
      assert |Glue(c, next)| == |Glue(c, mask)| - 1;
      final := GreedyMask(c, next);
    }
  }

  lemma {:induction false} GlueNothing(c: seq<Range>, mask: seq<bool>)
    requires |c| == |mask| + 1 && forall i :: 0 <= i < |mask| ==> !mask[i]
    ensures Glue(c, mask) == c
  {
    if mask != [] {
      GlueNothing(c[1..], mask[1..]);
    }
  }

  // ---- Any other cover ----

  ghost predicate Filled(c: seq<Range>, i: nat, ids: set<int>)
    requires i + 1 < |c|
  {
    forall id :: c[i].upper < id < c[i + 1].lower ==> id in ids
  }

  /** The mask of the gaps a set of IDs fills completely. */
  ghost function MaskOf(c: seq<Range>, ids: set<int>): (mask: seq<bool>)
    requires c != []
    ensures |c| == |mask| + 1
    ensures forall i :: 0 <= i < |mask| ==> (mask[i] <==> Filled(c, i, ids))
  {
    seq(|c| - 1, i requires 0 <= i < |c| - 1 => Filled(c, i, ids))
  }

  lemma {:induction false} GlueInside(c: seq<Range>, mask: seq<bool>, ids: set<int>)
    requires |c| == |mask| + 1 && Ids(c) <= ids
    requires forall i :: 0 <= i < |mask| && mask[i] ==> Filled(c, i, ids)
    ensures Ids(Glue(c, mask)) <= ids
  {
    if mask != [] {
      forall i | 0 <= i < |mask| - 1 && mask[1..][i] ensures Filled(c[1..], i, ids) {
        assert mask[i + 1] && Filled(c, i + 1, ids);
      }
      GlueInside(c[1..], mask[1..], ids);
      var g := Glue(c[1..], mask[1..]);
      if mask[0] {
        assert Filled(c, 0, ids);
        assert Glue(c, mask)[1..] == g[1..];
        forall id | c[0].lower <= id <= g[0].upper ensures id in ids {
          assert id in Span(c[0]) || c[0].upper < id < c[1].lower || id in Span(g[0]);
        }
        assert Span(Glue(c, mask)[0]) <= ids;
      } else {
        assert Glue(c, mask)[1..] == g;
      }
    }
  }

  ghost predicate Hole(g: seq<Range>, k: nat, q: seq<Range>)
    requires k + 1 < |g|
  {
    exists id :: g[k].upper < id < g[k + 1].lower && id !in Ids(q)
  }

  lemma HoleSeparates(g: seq<Range>, j: nat, k: nat, q: seq<Range>, host: nat)
    requires Canonical(g) && j < k < |g| && Hole(g, j, q)
    requires host < |q| && Within(g[j].lower, q[host])
    ensures !Within(g[k].lower, q[host])
  {
    var id :| g[j].upper < id < g[j + 1].lower && id !in Ids(q);
    CanonicalOrder(g, j, j);
    CanonicalOrder(g, j + 1, k);
    if Within(g[k].lower, q[host]) {
      InIds(q, host, id);
      assert false;
    }
  }

  /** With a hole of `q` in every gap of `g`, no two ranges of `g` share a range of `q`. */
  lemma HolesSeparate(g: seq<Range>, q: seq<Range>)
    requires Canonical(g) && Ids(g) <= Ids(q)
    requires forall k :: 0 <= k < |g| - 1 ==> Hole(g, k, q)
    ensures |g| <= |q|
  {
    var hosts: seq<nat> := [];
    for k := 0 to |g|
      invariant |hosts| == k
      invariant forall j :: 0 <= j < k ==> hosts[j] < |q| && Within(g[j].lower, q[hosts[j]])
    {
      CanonicalOrder(g, k, k);
      InIds(g, k, g[k].lower);
      var i := HolderOf(q, g[k].lower);
      hosts := hosts + [i];
    }
    forall j, k | 0 <= j < k < |hosts| ensures hosts[j] != hosts[k] {
      assert Hole(g, j, q);
      HoleSeparates(g, j, k, q, hosts[j]);
    }
    DistinctBound(hosts, |q|);
  }

  lemma DistinctBound(s: seq<nat>, n: nat)
    requires forall i :: 0 <= i < |s| ==> s[i] < n
    requires forall i, j :: 0 <= i < j < |s| ==> s[i] != s[j]
    ensures |s| <= n
  {
    var seen: set<nat> := {};
    for k := 0 to |s|
      invariant |seen| == k
      invariant forall x :: x in seen <==> exists i :: 0 <= i < k && s[i] == x
    {
      assert s[k] !in seen;
      seen := seen + {s[k]};
    }
    var below := Span(Range(0, n - 1));
    assert seen <= below;
    SubsetSize(seen, below);
    SpanSize(0, n - 1);
  }

  lemma SubsetSize(a: set<int>, b: set<int>)
    requires a <= b
    ensures |a| <= |b|
  {
    assert b == a + (b - a);
  }

  /** With marked gaps at most `t` and unmarked ones at least `t`, another mask
      pays at least `t` for each gap it marks in excess. */
  lemma {:induction false} CostPerGap(c: seq<Range>, mask: seq<bool>, other: seq<bool>, t: int)
    requires |c| == |mask| + 1 && |other| == |mask|
    requires forall i :: 0 <= i < |mask| ==> if mask[i] then Gap(c, i) - 1 <= t else t <= Gap(c, i) - 1
    ensures Cost(c, other) - Cost(c, mask) >= t * (Marked(other) - Marked(mask))
  {
    if mask != [] {
      forall i | 0 <= i < |mask| - 1
        ensures if mask[1..][i] then Gap(c[1..], i) - 1 <= t else t <= Gap(c[1..], i) - 1
      {
        assert mask[i + 1] == mask[1..][i] && Gap(c, i + 1) == Gap(c[1..], i);
      }
      CostPerGap(c[1..], mask[1..], other[1..], t);
      var d := Marked(other[1..]) - Marked(mask[1..]);
      assert t * (d + 1) == t * d + t && t * (d - 1) == t * d - t;
    }
  }

  lemma Separator(c: seq<Range>, mask: seq<bool>) returns (t: int)
    requires |c| == |mask| + 1 && Canonical(c) && NarrowFirst(c, mask)
    ensures t >= 0
    ensures forall i :: 0 <= i < |mask| ==> if mask[i] then Gap(c, i) - 1 <= t else t <= Gap(c, i) - 1
  {
    t := 0;
    ghost var from: int := -1;
    for k := 0 to |mask|
      invariant t >= 0
      invariant from == -1 ==> t == 0
      invariant from != -1 ==> 0 <= from < k && mask[from] && t == Gap(c, from) - 1
      invariant forall i :: 0 <= i < k && mask[i] ==> Gap(c, i) - 1 <= t
    {
      if mask[k] && Gap(c, k) - 1 > t {
        t, from := Gap(c, k) - 1, k;
      }
    }
    forall i | 0 <= i < |mask| && !mask[i] ensures t <= Gap(c, i) - 1 {
      CanonicalOrder(c, i, i + 1);
    }
  }

  lemma CoverFillsGaps(c: seq<Range>, q: seq<Range>)
    requires c != [] && Canonical(c) && Ids(c) <= Ids(q)
    ensures |c| - Marked(MaskOf(c, Ids(q))) <= |q|
    ensures Total(c) + Cost(c, MaskOf(c, Ids(q))) <= |Ids(q)|
  {
    var mask := MaskOf(c, Ids(q));
    var g := Glue(c, mask);
    GlueFacts(c, mask);
    GlueInside(c, mask, Ids(q));
    forall k | 0 <= k < |g| - 1 ensures Hole(g, k, q) {
      GlueGap(c, mask, k);
      assert !Filled(c, Unmarked(mask, k), Ids(q));
    }
    HolesSeparate(g, q);
    TotalIsSize(g);
    SubsetSize(Ids(g), Ids(q));
  }

  lemma GreedyIsCheapest(c: seq<Range>, q: seq<Range>)
    requires Canonical(c) && |c| > MAX_RANGES && |q| <= MAX_RANGES && Ids(c) <= Ids(q)
    ensures |Ids(Compacted(c))| <= |Ids(q)|
  {
    var none := seq(|c| - 1, _ => false);
    GlueNothing(c, none);
    var final := GreedyMask(c, none);
    var mask := MaskOf(c, Ids(q));
    GlueFacts(c, final);
    TotalIsSize(Glue(c, final));
    CoverFillsGaps(c, q);
    assert Marked(mask) >= Marked(final);
    CheaperMask(c, final, mask);
  }

  lemma CheaperMask(c: seq<Range>, mask: seq<bool>, other: seq<bool>)
    requires |c| == |mask| + 1 && |other| == |mask| && Canonical(c) && NarrowFirst(c, mask)
    requires Marked(mask) <= Marked(other)
    ensures Cost(c, mask) <= Cost(c, other)
  {
    var t := Separator(c, mask);
    CostPerGap(c, mask, other, t);
    ProductNonNegative(t, Marked(other) - Marked(mask));
  }

  lemma ProductNonNegative(x: nat, y: nat)
    ensures x * y >= 0
  {
  }

  /** `_merge` adds the fewest IDs: no list of at most MAX_RANGES ranges, whatever
      their order or overlap, covers the input with fewer IDs in all. */
  lemma MergeIsCheapest(rs: seq<Range>, q: seq<Range>)
    requires WellFormed(rs) && |q| <= MAX_RANGES && Ids(rs) <= Ids(q)
    ensures |Ids(Merged(rs))| <= |Ids(q)|
  {
    var c := CoalescedInput(rs);
    if |c| <= MAX_RANGES {
      SubsetSize(Ids(c), Ids(q));
    } else {
      GreedyIsCheapest(c, q);
    }
  }

  /** When MAX_RANGES ranges suffice for the input itself, `_merge` adds nothing. */
  lemma MergeIsExactWhenPossible(rs: seq<Range>, q: seq<Range>)
    requires WellFormed(rs) && |q| <= MAX_RANGES && Ids(q) == Ids(rs)
    ensures Ids(Merged(rs)) == Ids(rs)
  {
    MergedFacts(rs);
    MergeIsCheapest(rs, q);
    var extra := Ids(Merged(rs)) - Ids(rs);
    assert Ids(Merged(rs)) == Ids(rs) + extra;
    assert |Ids(Merged(rs))| == |Ids(rs)| + |extra|;
  }
}
