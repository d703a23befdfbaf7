/** Which VLAN IDs a tenant may put on a subport: the gaps between the segment ranges. */
module VlanRanges {
  import opened Common
  import opened Ranges
  import opened Sorting

  datatype Subport = Subport(portId: string, segmentationId: int)

  // ----- gaps

  function PrevEnd(m: seq<Range>, d: Range, i: nat): int
    requires i <= |m|
  {
    if i == 0 then d.lo - 1 else m[i - 1].hi
  }

  function NextStart(m: seq<Range>, d: Range, i: nat): int
    requires i <= |m|
  {
    if i == |m| then d.hi + 1 else m[i].lo
  }

  /** x lies strictly between what ends before position i and what starts there. */
  predicate InGap(m: seq<Range>, d: Range, i: nat, x: int) {
    i <= |m| && PrevEnd(m, d, i) < x < NextStart(m, d, i)
  }

  ghost predicate GapsOf(m: seq<Range>, d: Range, free: seq<Range>) {
    forall x :: InRanges(x, free) <==> exists i: nat :: InGap(m, d, i, x)
  }

  method FetchGapsInRanges(ranges: seq<Range>, default: Range) returns (free: seq<Range>)
    ensures GapsOf(ranges, default, free)
    ensures WellFormed(free)
  {
    free := [];
    var prevEnd := default.lo - 1;
    for i := 0 to |ranges|
      invariant prevEnd == PrevEnd(ranges, default, i)
      invariant WellFormed(free)
      invariant forall x :: InRanges(x, free) <==> exists k: nat :: k < i && InGap(ranges, default, k, x)
    {
      if ranges[i].lo > prevEnd + 1 {
        GapSnoc(ranges, default, i, free, Range(prevEnd + 1, ranges[i].lo - 1));
        free := free + [Range(prevEnd + 1, ranges[i].lo - 1)];
      }
      prevEnd := ranges[i].hi;
    }
    if prevEnd < default.hi {
      GapSnoc(ranges, default, |ranges|, free, Range(prevEnd + 1, default.hi));
      free := free + [Range(prevEnd + 1, default.hi)];
    }
  }

  lemma GapSnoc(m: seq<Range>, d: Range, i: nat, free: seq<Range>, gap: Range)
    requires i <= |m| && gap == Range(PrevEnd(m, d, i) + 1, NextStart(m, d, i) - 1)
    requires forall x :: InRanges(x, free) <==> exists k: nat :: k < i && InGap(m, d, k, x)
    ensures forall x :: InRanges(x, free + [gap]) <==> exists k: nat :: k < i + 1 && InGap(m, d, k, x)
  {
    forall x ensures InRanges(x, free + [gap]) <==> exists k: nat :: k < i + 1 && InGap(m, d, k, x) {
      InRangesSnoc(free, gap, x);
      assert Within(gap, x) <==> InGap(m, d, i, x);
    }
  }

  // ----- what the gaps between merged ranges contain

  /** Up to position i the ranges start at or below the ID, and from there on above it. */
  lemma UncoveredGap(m: seq<Range>, d: Range, x: int) returns (i: nat)
    requires Separated(m) && !InRanges(x, m)
    ensures i <= |m| && (i == 0 || m[i - 1].hi < x) && (i == |m| || x < m[i].lo)
    ensures forall k :: 0 <= k < i ==> m[k].lo <= x
    ensures forall k :: i <= k < |m| ==> x < m[k].lo
  {
    i := 0;
    while i < |m| && m[i].lo <= x
      invariant i <= |m| && (i == 0 || m[i - 1].hi < x)
      invariant forall k :: 0 <= k < i ==> m[k].lo <= x
    {
      assert !Within(m[i], x);
      i := i + 1;
    }
  }

  /** A covered ID can only fall into a gap that an inverted range opened behind it. */
  lemma CoveredGap(m: seq<Range>, d: Range, i: nat, x: int)
    requires Separated(m) && InGap(m, d, i, x) && InRanges(x, m)
    ensures i > 0 && Inverted(m[i - 1]) && m[i - 1].hi < x < m[i - 1].lo
  {
    var j :| 0 <= j < |m| && Within(m[j], x);
  }

  // ----- which IDs are accepted, in terms of the ranges as they were given

  /** A backwards range that survives merging: it adjoins nothing below its start. */
  predicate Backwards(raw: seq<Range>, r: Range) {
    r in raw && Inverted(r) && !InRanges(r.lo - 1, raw)
  }

  /** Another range comes after it in sorted order. */
  predicate Followed(raw: seq<Range>, r: Range) {
    var s := Sort(RangeLeq, raw);
    s != [] && r in s[..|s| - 1]
  }

  /** A range at another position does not come before it: it starts later, or together with it and ends no
      earlier. */
  lemma FollowedIff(raw: seq<Range>, r: Range)
    ensures Followed(raw, r) <==>
            exists i, j :: && 0 <= i < |raw| && 0 <= j < |raw| && i != j && raw[i] == r
                           && (r.lo < raw[j].lo || (r.lo == raw[j].lo && r.hi <= raw[j].hi))
  {
    var s := Sort(RangeLeq, raw);
    RangeLeqTotalOrder();
    SortSorts(RangeLeq, raw);
    if Followed(raw, r) {
      var k :| 0 <= k < |s| - 1 && s[k] == r;
      var i, j := TwoPositions(s, raw, k, |s| - 1);
      assert RangeLeq(s[k], s[|s| - 1]);
    }
    if i, j :| && 0 <= i < |raw| && 0 <= j < |raw| && i != j && raw[i] == r
               && (r.lo < raw[j].lo || (r.lo == raw[j].lo && r.hi <= raw[j].hi)) {
      var a, b := TwoPositions(raw, s, i, j);
      assert a < |s| - 1 || RangeLeq(s[b], s[a]);
      assert s[if a < |s| - 1 then a else b] == r;
    }
  }

  /** Two positions of a list are found again in a reordering of it. */
  lemma TwoPositions(s: seq<Range>, t: seq<Range>, i: nat, j: nat) returns (a: nat, b: nat)
    requires multiset(s) == multiset(t) && i < |s| && j < |s| && i != j
    ensures a < |t| && b < |t| && a != b && t[a] == s[i] && t[b] == s[j]
  {
    if s[i] == s[j] {
      CountsTwice(s, if i < j then i else j, if i < j then j else i);
      a, b := OccursTwice(t, s[i]);
    } else {
      a := OccursOnce(t, s[i]);
      b := OccursOnce(t, s[j]);
    }
  }

  lemma OccursOnce(t: seq<Range>, x: Range) returns (a: nat)
    requires x in multiset(t)
    ensures a < |t| && t[a] == x
  {
    a :| 0 <= a < |t| && t[a] == x;
  }

  lemma {:induction false} OccursTwice(t: seq<Range>, x: Range) returns (a: nat, b: nat)
    requires multiset(t)[x] >= 2
    ensures a < b < |t| && t[a] == x && t[b] == x
  {
    assert t == [t[0]] + t[1..];
    if t[0] == x {
      var k := OccursOnce(t[1..], x);
      a, b := 0, k + 1;
    } else {
      a, b := OccursTwice(t[1..], x);
      a, b := a + 1, b + 1;
    }
  }

  lemma CountsTwice(s: seq<Range>, i: nat, j: nat)
    requires i < j < |s| && s[i] == s[j]
    ensures multiset(s)[s[i]] >= 2
  {
    assert s == s[..j] + s[j..] && s[..j][i] == s[i] && s[j..][0] == s[j];
    assert multiset(s) == multiset(s[..j]) + multiset(s[j..]);
    assert s[i] in multiset(s[..j]) && s[i] in multiset(s[j..]);
  }

  /** The IDs between the ends of a backwards range; if it comes last, only up to the end of the default range. */
  function Freed(raw: seq<Range>, d: Range, r: Range): Range {
    Range(r.hi + 1, if Followed(raw, r) || r.lo <= d.hi + 1 then r.lo - 1 else d.hi)
  }

  predicate FreedByMistake(raw: seq<Range>, d: Range, x: int) {
    exists r :: r in raw && Backwards(raw, r) && Within(Freed(raw, d, r), x)
  }

  predicate StartsUpTo(raw: seq<Range>, x: int) {
    exists i :: 0 <= i < |raw| && raw[i].lo <= x
  }

  predicate StartsAbove(raw: seq<Range>, x: int) {
    exists i :: 0 <= i < |raw| && x < raw[i].lo
  }

  /** The accepted IDs: those that no range covers and that lie between the default range or a range on either
      side, and those that a backwards range frees, covered or not. */
  predicate FreeId(raw: seq<Range>, d: Range, x: int) {
    || FreedByMistake(raw, d, x)
    || (!InRanges(x, raw) && (d.lo <= x || StartsUpTo(raw, x)) && (x <= d.hi || StartsAbove(raw, x)))
  }

  lemma SortedAlike(raw: seq<Range>)
    ensures |Sort(RangeLeq, raw)| == |raw| && forall r :: r in Sort(RangeLeq, raw) <==> r in raw
  {
    RangeLeqTotalOrder();
    SortSorts(RangeLeq, raw);
  }

  lemma MergedStarts(raw: seq<Range>, m: seq<Range>, k: nat) returns (a: nat)
    requires MergeOf(raw, m) && k < |m|
    ensures a < |raw| && raw[a].lo == m[k].lo
  {
    var s := Sort(RangeLeq, raw);
    SortedAlike(raw);
    assert StartIn(s, m[k].lo);
    var b :| 0 <= b < |s| && s[b].lo == m[k].lo;
    assert s[b] in raw;
    a :| 0 <= a < |raw| && raw[a] == s[b];
  }

  lemma JoinedTo(raw: seq<Range>, m: seq<Range>, a: nat) returns (k: nat)
    requires MergeOf(raw, m) && a < |raw|
    ensures k < |m| && Joins(m[k], raw[a])
  {
    var s := Sort(RangeLeq, raw);
    SortedAlike(raw);
    assert raw[a] in s;
    var b :| 0 <= b < |s| && s[b] == raw[a];
    assert JoinedIn(m, s[b]);
    k :| 0 <= k < |m| && Joins(m[k], raw[a]);
  }

  /** A backwards range stays in the merged list, and is followed there exactly if it was followed before. */
  lemma BackwardsStays(raw: seq<Range>, m: seq<Range>, r: Range)
    requires MergeOf(raw, m) && Inverted(r)
    ensures r in m <==> Backwards(raw, r)
    ensures m != [] ==> (r in m[..|m| - 1] <==> Backwards(raw, r) && Followed(raw, r))
  {
    var s := Sort(RangeLeq, raw);
    SortedAlike(raw);
    SameCoverage(raw, s);
    assert m != [] ==> s != [] && s[..|raw| - 1] == s[..|s| - 1];
    if s != [] && r in s[..|s| - 1] {
      assert r in s;
    }
  }

  /** What lies between the ends of the inverted range before a gap was freed by that range. */
  lemma GapBehind(raw: seq<Range>, m: seq<Range>, d: Range, i: nat, x: int)
    requires MergeOf(raw, m) && InGap(m, d, i, x) && i > 0 && x < m[i - 1].lo
    ensures FreedByMistake(raw, d, x)
  {
    var r := m[i - 1];
    BackwardsStays(raw, m, r);
    if i < |m| {
      assert m[..|m| - 1][i - 1] == r;
    }
    assert Within(Freed(raw, d, r), x);
  }

  lemma FreedIsGap(raw: seq<Range>, m: seq<Range>, d: Range, x: int)
    requires MergeOf(raw, m) && FreedByMistake(raw, d, x)
    ensures exists i: nat :: InGap(m, d, i, x)
  {
    var r :| r in raw && Backwards(raw, r) && Within(Freed(raw, d, r), x);
    BackwardsStays(raw, m, r);
    if Followed(raw, r) {
      var k :| 0 <= k < |m| - 1 && m[k] == r;
      assert m[k].lo <= m[k + 1].lo;
      assert InGap(m, d, k + 1, x);
    } else {
      var k :| 0 <= k < |m| && m[k] == r;
      assert InGap(m, d, k + 1, x);
    }
  }

  lemma UncoveredIsGap(raw: seq<Range>, m: seq<Range>, d: Range, x: int)
    requires MergeOf(raw, m) && !InRanges(x, raw)
    requires (d.lo <= x || StartsUpTo(raw, x)) && (x <= d.hi || StartsAbove(raw, x))
    ensures exists i: nat :: InGap(m, d, i, x)
  {
    var i := UncoveredGap(m, d, x);
    if i == 0 && StartsUpTo(raw, x) {
      var a :| 0 <= a < |raw| && raw[a].lo <= x;
      var k := JoinedTo(raw, m, a);
    }
    if i == |m| && StartsAbove(raw, x) {
      var a :| 0 <= a < |raw| && x < raw[a].lo;
      var k := JoinedTo(raw, m, a);
    }
    assert InGap(m, d, i, x);
  }

  lemma GapIsFree(raw: seq<Range>, m: seq<Range>, d: Range, i: nat, x: int)
    requires MergeOf(raw, m) && InGap(m, d, i, x)
    ensures FreeId(raw, d, x)
  {
    if InRanges(x, raw) {
      CoveredGap(m, d, i, x);
      GapBehind(raw, m, d, i, x);
    } else if i > 0 && x < m[i - 1].lo {
      GapBehind(raw, m, d, i, x);
    } else {
      if i > 0 {
        var a := MergedStarts(raw, m, i - 1);
      }
      if i < |m| {
        var b := MergedStarts(raw, m, i);
      }
    }
  }

  /** For every list of ranges, every default range and every ID: it is accepted exactly if it is free. */
  lemma AcceptedExactly(raw: seq<Range>, m: seq<Range>, d: Range, free: seq<Range>, x: int)
    requires MergeOf(raw, m) && GapsOf(m, d, free)
    ensures InRanges(x, free) <==> FreeId(raw, d, x)
  {
    if i: nat :| InGap(m, d, i, x) {
      GapIsFree(raw, m, d, i, x);
    }
    if FreedByMistake(raw, d, x) {
      FreedIsGap(raw, m, d, x);
    } else if FreeId(raw, d, x) {
      UncoveredIsGap(raw, m, d, x);
    }
  }

  /** Inside the default range: free unless covered, or between the ends of a backwards range that adjoins
      nothing below its start. */
  predicate FreeInDefault(raw: seq<Range>, x: int) {
    !InRanges(x, raw) || exists r :: r in raw && r.hi < x < r.lo && !InRanges(r.lo - 1, raw)
  }

  /** For every list of ranges, the IDs accepted inside the default range need no sorting to describe. */
  lemma AcceptedInDefault(raw: seq<Range>, m: seq<Range>, d: Range, free: seq<Range>, x: int)
    requires MergeOf(raw, m) && GapsOf(m, d, free) && Within(d, x)
    ensures InRanges(x, free) <==> FreeInDefault(raw, x)
  {
    AcceptedExactly(raw, m, d, free, x);
    if r :| r in raw && r.hi < x < r.lo && !InRanges(r.lo - 1, raw) {
      assert Backwards(raw, r) && Within(Freed(raw, d, r), x);
    }
    if FreedByMistake(raw, d, x) {
      var r :| r in raw && Backwards(raw, r) && Within(Freed(raw, d, r), x);
      assert r.hi < x < r.lo;
    }
  }

  /** With ranges written forwards no accepted ID lies in one, wherever the default range is. */
  lemma ForwardRangesAreSafe(raw: seq<Range>, d: Range, x: int)
    requires WellFormed(raw)
    ensures FreeId(raw, d, x) ==> !InRanges(x, raw)
  {
    forall r | r in raw ensures !Backwards(raw, r) {
      var i :| 0 <= i < |raw| && raw[i] == r;
    }
  }

  predicate Overlap(a: Range, b: Range) {
    a.lo <= a.hi && b.lo <= b.hi && a.lo <= b.hi && b.lo <= a.hi
  }

  /** A range overlaps the IDs that a backwards range frees. */
  predicate SomeTakenFreed(raw: seq<Range>, d: Range) {
    exists r, q :: r in raw && q in raw && Backwards(raw, r) && Overlap(Freed(raw, d, r), q)
  }

  /** An ID that a range covers is accepted somewhere if and only if a range overlaps what a backwards one frees. */
  lemma TakenIdAcceptedIff(raw: seq<Range>, m: seq<Range>, d: Range, free: seq<Range>)
    requires MergeOf(raw, m) && GapsOf(m, d, free)
    ensures (exists x :: InRanges(x, free) && InRanges(x, raw)) <==> SomeTakenFreed(raw, d)
  {
    if x :| InRanges(x, free) && InRanges(x, raw) {
      AcceptedExactly(raw, m, d, free, x);
      var r :| r in raw && Backwards(raw, r) && Within(Freed(raw, d, r), x);
      var i :| 0 <= i < |raw| && Within(raw[i], x);
      assert raw[i] in raw && Overlap(Freed(raw, d, r), raw[i]);
    }
    if r, q :| r in raw && q in raw && Backwards(raw, r) && Overlap(Freed(raw, d, r), q) {
      var f := Freed(raw, d, r);
      var x := if f.lo <= q.lo then q.lo else f.lo;
      var i :| 0 <= i < |raw| && raw[i] == q;
      assert Within(raw[i], x) && Within(f, x);
      AcceptedExactly(raw, m, d, free, x);
    }
  }

  // ----- when the accepted IDs are the default range minus the segment ranges

  /** Every merged range overlaps or adjoins the default range; if that is backwards, there is at most one and it
      leaves no gap to either end. */
  predicate Touching(m: seq<Range>, d: Range) {
    if d.lo <= d.hi + 1 then forall k :: 0 <= k < |m| ==> d.lo <= m[k].hi + 1 && m[k].lo <= d.hi + 1
    else |m| <= 1 && forall k :: 0 <= k < |m| ==> m[k].lo <= d.lo && d.hi <= m[k].hi
  }

  lemma TouchingGap(m: seq<Range>, d: Range, i: nat, x: int)
    requires Separated(m) && Touching(m, d) && InGap(m, d, i, x)
    ensures Within(d, x)
  {
    assert i > 0 && d.lo <= d.hi + 1 ==> d.lo <= m[i - 1].hi + 1;
    assert i < |m| && d.lo <= d.hi + 1 ==> m[i].lo <= d.hi + 1;
  }

  /** A merged range that does not touch leaves an ID outside the default range in a gap. */
  lemma ApartGap(m: seq<Range>, d: Range) returns (i: nat, x: int)
    requires Separated(m) && !Touching(m, d)
    ensures InGap(m, d, i, x) && !Within(d, x)
  {
    if d.lo <= d.hi + 1 {
      var k :| 0 <= k < |m| && !(d.lo <= m[k].hi + 1 && m[k].lo <= d.hi + 1);
      if m[k].hi + 1 < d.lo {
        i, x := k + 1, m[k].hi + 1;
      } else {
        i, x := k, m[k].lo - 1;
      }
    } else if |m| > 1 {
      i, x := 1, m[0].hi + 1;
    } else if m[0].lo > d.lo {
      i, x := 0, d.lo;
    } else {
      i, x := 1, d.hi;
    }
  }

  /** For every list and every default range, the accepted IDs are exactly the default range minus the segment
      ranges if and only if every merged range touches it and no taken ID is freed. */
  lemma ExactComplementIff(raw: seq<Range>, m: seq<Range>, d: Range, free: seq<Range>)
    requires MergeOf(raw, m) && GapsOf(m, d, free)
    ensures (forall x :: InRanges(x, free) <==> Within(d, x) && !InRanges(x, raw))
            <==> Touching(m, d) && !SomeTakenFreed(raw, d)
  {
    TakenIdAcceptedIff(raw, m, d, free);
    if Touching(m, d) && !SomeTakenFreed(raw, d) {
      forall x ensures InRanges(x, free) <==> Within(d, x) && !InRanges(x, raw) {
        AcceptedExactly(raw, m, d, free, x);
        if i: nat :| InGap(m, d, i, x) {
          TouchingGap(m, d, i, x);
        }
      }
    }
    if !Touching(m, d) {
      var i, x := ApartGap(m, d);
      assert InRanges(x, free) && !Within(d, x);
    }
  }

  /** A backwards range really does let a taken ID through: 1 to 4 is in use, and 6 down to 3 frees 4 again. */
  lemma BackwardsRangeAdmitsTakenId(m: seq<Range>, free: seq<Range>)
    requires MergeOf([Range(1, 4), Range(6, 3)], m) && GapsOf(m, Range(1, 3799), free)
    ensures InRanges(4, [Range(1, 4), Range(6, 3)]) && InRanges(4, free)
  {
    var raw := [Range(1, 4), Range(6, 3)];
    assert Within(raw[0], 4);
    assert raw[1] in raw && !InRanges(5, raw);
    AcceptedInDefault(raw, m, Range(1, 3799), free, 4);
  }

  const TAKEN_OUTSIDE := [Range(100, 104), Range(106, 103), Range(200, 201)]

  lemma MiddleIsFollowed()
    ensures Backwards(TAKEN_OUTSIDE, TAKEN_OUTSIDE[1]) && Followed(TAKEN_OUTSIDE, TAKEN_OUTSIDE[1])
  {
    AlreadySorted(TAKEN_OUTSIDE);
    assert TAKEN_OUTSIDE[..2][1] == TAKEN_OUTSIDE[1];
    assert TAKEN_OUTSIDE[1] in TAKEN_OUTSIDE;
  }

  /** Outside the default range as well: 100 to 104 is in use, and 106 down to 103 frees 104 because 200 to 201
      comes after it. */
  lemma TakenIdAdmittedOutside(m: seq<Range>, free: seq<Range>)
    requires MergeOf(TAKEN_OUTSIDE, m) && GapsOf(m, Range(1, 50), free)
    ensures InRanges(104, TAKEN_OUTSIDE) && InRanges(104, free)
  {
    var r := TAKEN_OUTSIDE[1];
    MiddleIsFollowed();
    assert Within(TAKEN_OUTSIDE[0], 104);
    assert r in TAKEN_OUTSIDE && Within(Freed(TAKEN_OUTSIDE, Range(1, 50), r), 104);
    AcceptedExactly(TAKEN_OUTSIDE, m, Range(1, 50), free, 104);
  }

  lemma AlreadySorted(raw: seq<Range>)
    requires Sorted(RangeLeq, raw)
    ensures Sort(RangeLeq, raw) == raw
  {
    RangeLeqTotalOrder();
    SortSorts(RangeLeq, raw);
    SortedUnique(RangeLeq, Sort(RangeLeq, raw), raw);
  }

  // ----- the check on subports

  /** The allowed ranges hold exactly the free IDs, for every list and every default range. */
  method AllowedTenantVlanIdRanges(segmentRanges: seq<Range>, default: Range) returns (free: seq<Range>)
    ensures forall x :: InRanges(x, free) <==> FreeId(segmentRanges, default, x)
    ensures WellFormed(free)
  {
    var merged := MergeRanges(segmentRanges);
    free := FetchGapsInRanges(merged, default);
    forall x ensures InRanges(x, free) <==> FreeId(segmentRanges, default, x) {
      AcceptedExactly(segmentRanges, merged, default, free, x);
    }
  }

  /** The first subport whose VLAN ID is not free; the network node trunk is exempt. */
  method CheckSubportsSegmentationId(subports: seq<Subport>, trunkId: string, networkNodeTrunkId: string,
                                     segmentRanges: seq<Range>, default: Range)
    returns (offending: Option<nat>)
    ensures trunkId == networkNodeTrunkId ==> offending.None?
    ensures offending.Some? ==>
              && offending.value < |subports|
              && !FreeId(segmentRanges, default, subports[offending.value].segmentationId)
    ensures trunkId != networkNodeTrunkId ==>
              var checked := if offending.Some? then offending.value else |subports|;
              forall i :: 0 <= i < checked ==> FreeId(segmentRanges, default, subports[i].segmentationId)
  {
    if trunkId == networkNodeTrunkId {
      return None;
    }
    var allowed := AllowedTenantVlanIdRanges(segmentRanges, default);
    for i := 0 to |subports|
      invariant forall k :: 0 <= k < i ==> InRanges(subports[k].segmentationId, allowed)
    {
      if !InRanges(subports[i].segmentationId, allowed) {
        return Some(i);
      }
    }
    return None;
  }
}
