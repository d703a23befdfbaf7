/** Closed integer ranges and the sort-and-sweep merge that both the VNI and the VLAN code use. */
module Ranges {
  import opened Sorting

  datatype Range = Range(lo: int, hi: int)

  predicate Within(r: Range, x: int) {
    r.lo <= x <= r.hi
  }

  predicate InRanges(x: int, rs: seq<Range>) {
    exists i :: 0 <= i < |rs| && Within(rs[i], x)
  }

  predicate WellFormed(rs: seq<Range>) {
    forall i :: 0 <= i < |rs| ==> rs[i].lo <= rs[i].hi
  }

  /** Sorted, disjoint and not even adjacent. */
  predicate Separated(rs: seq<Range>) {
    forall a, b :: 0 <= a < b < |rs| ==> rs[a].hi + 1 < rs[b].lo && rs[a].lo <= rs[b].lo
  }

  /** The normal form of a set of integers. */
  predicate Canonical(rs: seq<Range>) {
    WellFormed(rs) && Separated(rs)
  }

  /** Written backwards with a gap in between, such as 9 down to 4: it contains nothing. */
  predicate Inverted(r: Range) {
    r.hi + 1 < r.lo
  }

  /** What merging keeps of an arbitrary list: the integers it covers, and those inverted entries whose
      start does not adjoin anything below it, together with where the merged ranges come from. */
  ghost predicate MergeOf(rs: seq<Range>, merged: seq<Range>) {
    && Separated(merged)
    && (forall x :: InRanges(x, merged) <==> InRanges(x, rs))
    && (forall r :: Inverted(r) ==> (r in merged <==> r in rs && !InRanges(r.lo - 1, rs)))
    && (WellFormed(rs) ==> WellFormed(merged))
    && Traced(Sort(RangeLeq, rs), |rs|, merged)
  }

  predicate StartIn(rs: seq<Range>, y: int) {
    exists a :: 0 <= a < |rs| && rs[a].lo == y
  }

  /** Either the range itself, or one that it starts in or adjoins. */
  predicate Joins(q: Range, r: Range) {
    q == r || q.lo <= r.lo <= q.hi + 1
  }

  predicate JoinedIn(rs: seq<Range>, r: Range) {
    exists k :: 0 <= k < |rs| && Joins(rs[k], r)
  }

  /** Where the merged ranges come from: each starts where an entry starts, each of the first i entries is in one,
      and an inverted entry is followed in the merged list exactly if it was followed in the sorted one. */
  ghost predicate Traced(s: seq<Range>, i: nat, merged: seq<Range>) {
    && |s| >= i
    && (merged == [] <==> i == 0)
    && (forall k :: 0 <= k < |merged| ==> StartIn(s, merged[k].lo))
    && (forall a :: 0 <= a < i ==> JoinedIn(merged, s[a]))
    && (i > 0 ==> forall r :: Inverted(r) ==>
          (r in merged[..|merged| - 1] <==> r in s[..i - 1] && !InRanges(r.lo - 1, s)))
  }

  predicate RangeLeq(a: Range, b: Range) {
    a.lo < b.lo || (a.lo == b.lo && a.hi <= b.hi)
  }

  lemma RangeLeqTotalOrder()
    ensures TotalOrder(RangeLeq)
  {
  }

  /** The sweep after the first i sorted ranges. */
  ghost predicate Swept(s: seq<Range>, i: nat, merged: seq<Range>)
    requires i <= |s|
  {
    && Separated(merged)
    && (merged == [] <==> i == 0)
    && (forall x :: InRanges(x, merged) <==> InRanges(x, s[..i]))
    && (i > 0 ==> LastFits(s[i - 1], merged[|merged| - 1]))
    && InvertedKept(s, i, merged)
    && (WellFormed(s) ==> WellFormed(merged))
  }

  ghost predicate InvertedKept(s: seq<Range>, i: nat, merged: seq<Range>)
    requires i <= |s|
  {
    forall r :: Inverted(r) ==> (r in merged <==> r in s[..i] && !InRanges(r.lo - 1, s))
  }

  /** The open end of the sweep: it starts no later than the range last read, and ends with it if
      they start together. */
  predicate LastFits(read: Range, last: Range) {
    last.lo <= read.lo && (last.lo == read.lo ==> last.hi == read.hi)
  }

  lemma InRangesSnoc(rs: seq<Range>, r: Range, x: int)
    ensures InRanges(x, rs + [r]) <==> InRanges(x, rs) || Within(r, x)
  {
    var t := rs + [r];
    if InRanges(x, rs) {
      var i :| 0 <= i < |rs| && Within(rs[i], x);
      assert Within(t[i], x);
    }
    if Within(r, x) {
      assert Within(t[|rs|], x);
    }
  }

  lemma PrefixSnoc(s: seq<Range>, i: nat)
    requires i < |s|
    ensures s[..i + 1] == s[..i] + [s[i]]
    ensures forall x :: InRanges(x, s[..i + 1]) <==> InRanges(x, s[..i]) || Within(s[i], x)
    ensures forall r :: r in s[..i + 1] <==> r in s[..i] || r == s[i]
  {
    assert s[..i + 1] == s[..i] + [s[i]];
    forall x ensures InRanges(x, s[..i + 1]) <==> InRanges(x, s[..i]) || Within(s[i], x) {
      InRangesSnoc(s[..i], s[i], x);
    }
  }

  /** Below the start of range i, the whole sorted list covers what its prefix covers. */
  lemma BelowStart(s: seq<Range>, i: nat, x: int)
    requires Sorted(RangeLeq, s) && i < |s| && x < s[i].lo
    ensures InRanges(x, s) <==> InRanges(x, s[..i])
  {
    if InRanges(x, s) {
      var k :| 0 <= k < |s| && Within(s[k], x);
      assert k >= i ==> k == i || RangeLeq(s[i], s[k]);
      assert Within(s[..i][k], x);
    }
    if InRanges(x, s[..i]) {
      var k :| 0 <= k < i && Within(s[..i][k], x);
      assert Within(s[k], x);
    }
  }

  lemma SeparatedSnoc(merged: seq<Range>, r: Range)
    requires Separated(merged)
    requires merged != [] ==> merged[|merged| - 1].hi + 1 < r.lo && merged[|merged| - 1].lo <= r.lo
    ensures Separated(merged + [r])
    ensures forall x :: r.lo - 1 <= x ==> !InRanges(x, merged)
  {
    if merged != [] {
      var last := merged[|merged| - 1];
      forall a | 0 <= a < |merged| ensures merged[a].hi + 1 < r.lo && merged[a].lo <= r.lo {
        assert a < |merged| - 1 ==> merged[a].hi + 1 < last.lo && merged[a].lo <= last.lo;
      }
    }
  }

  lemma SweepAppend(s: seq<Range>, i: nat, merged: seq<Range>)
    requires i < |s| && Sorted(RangeLeq, s) && Swept(s, i, merged)
    requires merged != [] ==> s[i].lo > merged[|merged| - 1].hi + 1
    ensures Swept(s, i + 1, merged + [s[i]])
  {
    var r, merged' := s[i], merged + [s[i]];
    assert merged != [] ==> RangeLeq(s[i - 1], r);
    SeparatedSnoc(merged, r);
    PrefixSnoc(s, i);
    forall x ensures InRanges(x, merged') <==> InRanges(x, s[..i + 1]) {
      InRangesSnoc(merged, r, x);
    }
    BelowStart(s, i, r.lo - 1);
    assert !InRanges(r.lo - 1, s);
  }

  lemma SweepExtend(s: seq<Range>, i: nat, merged: seq<Range>)
    requires i < |s| && Sorted(RangeLeq, s) && Swept(s, i, merged)
    requires merged != [] && s[i].lo <= merged[|merged| - 1].hi + 1
    ensures Swept(s, i + 1, Extended(merged, s[i].hi))
  {
    var r, last, merged' := s[i], merged[|merged| - 1], Extended(merged, s[i].hi);
    assert RangeLeq(s[i - 1], r);
    PrefixSnoc(s, i);
    assert Separated(merged');
    forall x ensures InRanges(x, merged') <==> InRanges(x, s[..i + 1]) {
      ExtendedCovers(merged, r, x);
    }
    forall q | Inverted(q) ensures q in merged' <==> q in s[..i + 1] && !InRanges(q.lo - 1, s) {
      ExtendedKeeps(merged, r, q);
      if q == r {
        assert Within(last, q.lo - 1);
        assert InRanges(q.lo - 1, merged);
        BelowStart(s, i, q.lo - 1);
      }
    }
  }

  lemma JoinedSnoc(merged: seq<Range>, q: Range, r: Range)
    requires JoinedIn(merged, r) || Joins(q, r)
    ensures JoinedIn(merged + [q], r)
  {
    var t := merged + [q];
    if JoinedIn(merged, r) {
      var k :| 0 <= k < |merged| && Joins(merged[k], r);
      assert Joins(t[k], r);
    } else {
      assert Joins(t[|merged|], r);
    }
  }

  lemma TraceAppend(s: seq<Range>, i: nat, merged: seq<Range>)
    requires i < |s| && InvertedKept(s, i, merged) && Traced(s, i, merged)
    ensures Traced(s, i + 1, merged + [s[i]])
  {
    var merged' := merged + [s[i]];
    forall k | 0 <= k < |merged'| ensures StartIn(s, merged'[k].lo) {
      if k == |merged| {
        assert s[i].lo == merged'[k].lo;
      }
    }
    forall a | 0 <= a < i + 1 ensures JoinedIn(merged', s[a]) {
      JoinedSnoc(merged, s[i], s[a]);
    }
    AllButAppended(s, i, merged);
  }

  lemma AllButAppended(s: seq<Range>, i: nat, merged: seq<Range>)
    requires i < |s| && InvertedKept(s, i, merged)
    ensures var merged' := merged + [s[i]];
            forall r :: Inverted(r) ==>
              (r in merged'[..|merged'| - 1] <==> r in s[..i + 1 - 1] && !InRanges(r.lo - 1, s))
  {
    assert (merged + [s[i]])[..|merged|] == merged;
  }

  lemma TraceExtend(s: seq<Range>, i: nat, merged: seq<Range>)
    requires i < |s| && InvertedKept(s, i, merged) && Traced(s, i, merged) && merged != []
    requires merged[|merged| - 1].lo <= s[i].lo <= merged[|merged| - 1].hi + 1
    ensures Traced(s, i + 1, Extended(merged, s[i].hi))
  {
    var n, merged' := |merged| - 1, Extended(merged, s[i].hi);
    assert merged'[..n] == merged[..n];
    forall a | 0 <= a < i + 1 ensures JoinedIn(merged', s[a]) {
      JoinedExtend(s, i, merged, a);
    }
    forall r | Inverted(r) ensures r in merged'[..n] <==> r in s[..i] && !InRanges(r.lo - 1, s) {
      LastIsForward(merged, r);
    }
  }

  lemma JoinedExtend(s: seq<Range>, i: nat, merged: seq<Range>, a: nat)
    requires a <= i < |s| && merged != [] && (a < i ==> JoinedIn(merged, s[a]))
    requires merged[|merged| - 1].lo <= s[i].lo <= merged[|merged| - 1].hi + 1
    ensures JoinedIn(Extended(merged, s[i].hi), s[a])
  {
    var merged' := Extended(merged, s[i].hi);
    if a == i {
      assert Joins(merged'[|merged| - 1], s[i]);
    } else {
      var k :| 0 <= k < |merged| && Joins(merged[k], s[a]);
      assert Joins(merged'[k], s[a]);
    }
  }

  lemma LastIsForward(merged: seq<Range>, r: Range)
    requires merged != [] && !Inverted(merged[|merged| - 1]) && Inverted(r)
    ensures r in merged[..|merged| - 1] <==> r in merged
  {
    assert merged == merged[..|merged| - 1] + [merged[|merged| - 1]];
  }

  function Extended(merged: seq<Range>, end: int): seq<Range>
    requires merged != []
  {
    var last := merged[|merged| - 1];
    merged[|merged| - 1 := Range(last.lo, if end > last.hi then end else last.hi)]
  }

  lemma ExtendedCovers(merged: seq<Range>, r: Range, x: int)
    requires merged != [] && merged[|merged| - 1].lo <= r.lo <= merged[|merged| - 1].hi + 1
    ensures InRanges(x, Extended(merged, r.hi)) <==> InRanges(x, merged) || Within(r, x)
  {
    var n, merged' := |merged| - 1, Extended(merged, r.hi);
    if InRanges(x, merged) {
      var i :| 0 <= i < |merged| && Within(merged[i], x);
      assert Within(merged'[i], x);
    }
    if Within(r, x) {
      assert Within(merged'[n], x);
    }
    if InRanges(x, merged') {
      var i :| 0 <= i < |merged'| && Within(merged'[i], x);
      assert i < n ==> Within(merged[i], x);
      assert i == n ==> Within(merged[n], x) || Within(r, x);
    }
  }

  lemma ExtendedKeeps(merged: seq<Range>, r: Range, q: Range)
    requires merged != [] && merged[|merged| - 1].lo <= r.lo <= merged[|merged| - 1].hi + 1
    requires Inverted(q)
    ensures q in Extended(merged, r.hi) <==> q in merged
  {
    var n, merged' := |merged| - 1, Extended(merged, r.hi);
    if q in merged {
      var i :| 0 <= i < |merged| && merged[i] == q;
      assert merged'[i] == q;
    }
    if q in merged' {
      var i :| 0 <= i < |merged'| && merged'[i] == q;
      assert merged[i] == q;
    }
  }

  method SortRanges(ranges: seq<Range>) returns (s: seq<Range>)
    ensures s == Sort(RangeLeq, ranges)
    ensures Sorted(RangeLeq, s) && |s| == |ranges| && forall r :: r in ranges <==> r in s
  {
    s := Sort(RangeLeq, ranges);
    RangeLeqTotalOrder();
    SortSorts(RangeLeq, ranges);
  }

  /** One range read: it opens a new merged range or extends the last one. */
  method SweepOne(merged: seq<Range>, r: Range, ghost s: seq<Range>, ghost i: nat) returns (after: seq<Range>)
    requires i < |s| && s[i] == r && Sorted(RangeLeq, s) && Swept(s, i, merged) && Traced(s, i, merged)
    ensures Swept(s, i + 1, after) && Traced(s, i + 1, after)
  {
    if merged == [] || r.lo > merged[|merged| - 1].hi + 1 {
      SweepAppend(s, i, merged);
      TraceAppend(s, i, merged);
      after := merged + [r];
    } else {
      SweepExtend(s, i, merged);
      assert RangeLeq(s[i - 1], r);
      TraceExtend(s, i, merged);
      after := Extended(merged, r.hi);
    }
  }

  /** Merging an arbitrary list of ranges. */
  method MergeRanges(ranges: seq<Range>) returns (merged: seq<Range>)
    ensures MergeOf(ranges, merged)
    ensures WellFormed(ranges) ==> Canonical(merged)
    ensures merged == [] <==> ranges == []
  {
    var s := SortRanges(ranges);
    merged := [];
    for i := 0 to |s|
      invariant Swept(s, i, merged) && Traced(s, i, merged)
    {
      merged := SweepOne(merged, s[i], s, i);
    }
    SweptAll(ranges, s, merged);
  }

  lemma SweptAll(ranges: seq<Range>, s: seq<Range>, merged: seq<Range>)
    requires Swept(s, |s|, merged) && Traced(s, |s|, merged) && s == Sort(RangeLeq, ranges)
    requires |s| == |ranges| && forall r :: r in ranges <==> r in s
    ensures MergeOf(ranges, merged) && (merged == [] <==> ranges == [])
  {
    assert s[..|s|] == s;
    SameCoverage(ranges, s);
  }

  lemma SameCoverage(rs: seq<Range>, s: seq<Range>)
    requires forall r :: r in rs <==> r in s
    ensures forall x :: InRanges(x, rs) <==> InRanges(x, s)
    ensures WellFormed(rs) <==> WellFormed(s)
  {
    forall x ensures InRanges(x, rs) <==> InRanges(x, s) {
      CoverageIncluded(rs, s, x);
      CoverageIncluded(s, rs, x);
    }
    assert WellFormed(rs) <==> forall r :: r in rs ==> r.lo <= r.hi;
    assert WellFormed(s) <==> forall r :: r in s ==> r.lo <= r.hi;
  }

  lemma CoverageIncluded(rs: seq<Range>, s: seq<Range>, x: int)
    requires forall r :: r in rs ==> r in s
    ensures InRanges(x, rs) ==> InRanges(x, s)
  {
    if InRanges(x, rs) {
      var i :| 0 <= i < |rs| && Within(rs[i], x);
      assert rs[i] in s;
      var k :| 0 <= k < |s| && s[k] == rs[i];
      assert Within(s[k], x);
    }
  }

  // ----- the normal form is unique

  lemma CanonicalTail(a: seq<Range>, x: int)
    requires Canonical(a) && a != []
    ensures InRanges(x, a[1..]) <==> InRanges(x, a) && x > a[0].hi
  {
    if InRanges(x, a[1..]) {
      var i :| 0 <= i < |a[1..]| && Within(a[1..][i], x);
      assert Within(a[i + 1], x);
    }
    if InRanges(x, a) && x > a[0].hi {
      var i :| 0 <= i < |a| && Within(a[i], x);
      assert Within(a[1..][i - 1], x);
    }
  }

  lemma HeadCovers(a: seq<Range>, x: int)
    requires a != [] && Within(a[0], x)
    ensures InRanges(x, a)
  {
  }

  lemma CanonicalHead(a: seq<Range>, b: seq<Range>)
    requires Canonical(a) && Canonical(b) && a != [] && b != []
    requires forall x :: InRanges(x, a) <==> InRanges(x, b)
    ensures a[0].lo >= b[0].lo
    ensures a[0].lo == b[0].lo ==> a[0].hi <= b[0].hi
  {
    HeadCovers(a, a[0].lo);
    if a[0].lo == b[0].lo && a[0].hi > b[0].hi {
      HeadCovers(a, b[0].hi + 1);
    }
  }

  lemma EmptyCover(a: seq<Range>, b: seq<Range>)
    requires a == [] && WellFormed(b) && forall x :: InRanges(x, a) <==> InRanges(x, b)
    ensures b == []
  {
    if b != [] {
      HeadCovers(b, b[0].lo);
    }
  }

  /** Two normal forms that cover the same integers are the same list. */
  lemma {:induction false} CanonicalUnique(a: seq<Range>, b: seq<Range>)
    requires Canonical(a) && Canonical(b)
    requires forall x :: InRanges(x, a) <==> InRanges(x, b)
    ensures a == b
  {
    if a == [] {
      EmptyCover(a, b);
    } else if b == [] {
      EmptyCover(b, a);
    } else {
      CanonicalHead(a, b);
      CanonicalHead(b, a);
      forall x ensures InRanges(x, a[1..]) <==> InRanges(x, b[1..]) {
        CanonicalTail(a, x);
        CanonicalTail(b, x);
      }
      CanonicalUnique(a[1..], b[1..]);
      assert a == [a[0]] + a[1..] && b == [b[0]] + b[1..];
    }
  }
}
