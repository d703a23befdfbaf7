/** Configured VNI ranges: parsing, validation and the canonical form. */
module VniRanges {
  import opened Common
  import opened PyText
  import opened Ranges

  // A VXLAN network identifier has 24 bits (section 5 of RFC 7348).
  const MIN_VNI := 1
  const MAX_VNI := 0xFF_FFFF

  datatype Reason = EmptyRange | NotIntegers | StartAfterEnd | OutOfBounds | NoRanges

  datatype InvalidRange = InvalidRange(entry: string, reason: Reason)

  predicate Bounded(r: Range) {
    MIN_VNI <= r.lo <= r.hi <= MAX_VNI
  }

  function Bounds(entry: string): (Option<int>, Option<int>) {
    var k := Find(entry, ':');
    if k < |entry| then (ParseInt(entry[..k]), ParseInt(entry[k + 1..]))
    else (ParseInt(entry), ParseInt(entry))
  }

  /** One entry, "start:end" or a single VNI. */
  function ParseEntry(raw: string): (r: Result<Range, InvalidRange>)
    ensures r.Ok? ==> Bounded(r.value)
    ensures r.Err? ==> r.error.entry == Strip(raw)
  {
    var entry := Strip(raw);
    if entry == "" then Err(InvalidRange(entry, EmptyRange))
    else
      var (start, end) := Bounds(entry);
      if start.None? || end.None? then Err(InvalidRange(entry, NotIntegers))
      else if start.value > end.value then Err(InvalidRange(entry, StartAfterEnd))
      else if start.value < MIN_VNI || end.value > MAX_VNI then Err(InvalidRange(entry, OutOfBounds))
      else Ok(Range(start.value, end.value))
  }

  predicate SplitAtColon(entry: string, a: string, b: string) {
    entry == a + [':'] + b && ':' !in a
  }

  /** The text names this range: two integers around the first colon, or one integer. */
  ghost predicate Reads(entry: string, r: Range) {
    || (':' !in entry && ParseInt(entry) == Some(r.lo) && r.lo == r.hi)
    || exists a, b :: SplitAtColon(entry, a, b) && ParseInt(a) == Some(r.lo) && ParseInt(b) == Some(r.hi)
  }

  lemma BoundsAreRead(entry: string, r: Range)
    ensures Bounds(entry) == (Some(r.lo), Some(r.hi)) <==> Reads(entry, r)
  {
    var k := Find(entry, ':');
    if k < |entry| {
      assert entry == entry[..k] + [':'] + entry[k + 1..];
      assert SplitAtColon(entry, entry[..k], entry[k + 1..]);
      assert entry[k] == ':';
    } else {
      assert entry[..k] == entry;
    }
    forall a, b | SplitAtColon(entry, a, b) ensures k == |a| && a == entry[..k] && b == entry[k + 1..] {
      FindFirst(a, ':', b);
    }
  }

  /** An entry is accepted as a range exactly if its stripped text names it and it lies in the VNI space; what is
      refused names no range, one that starts after its end, or one outside the VNI space, as the reason says. */
  lemma EntryAcceptedIff(raw: string, r: Range)
    ensures ParseEntry(raw) == Ok(r) <==> Reads(Strip(raw), r) && 1 <= r.lo <= r.hi <= 16777215
    ensures ParseEntry(raw).Err? && Reads(Strip(raw), r) ==>
              ParseEntry(raw).error == InvalidRange(Strip(raw), if r.lo > r.hi then StartAfterEnd else OutOfBounds)
    ensures (forall q :: !Reads(Strip(raw), q)) <==>
            ParseEntry(raw) == Err(InvalidRange(Strip(raw), if Strip(raw) == "" then EmptyRange else NotIntegers))
  {
    forall q: Range ensures Bounds(Strip(raw)) == (Some(q.lo), Some(q.hi)) <==> Reads(Strip(raw), q) {
      BoundsAreRead(Strip(raw), q);
    }
    var (lo, hi) := Bounds(Strip(raw));
    if lo.Some? && hi.Some? {
      assert Reads(Strip(raw), Range(lo.value, hi.value));
    }
  }

  /** The integers that the entries denote. */
  ghost predicate Denotes(entries: seq<string>, x: int) {
    exists i :: 0 <= i < |entries| && ParseEntry(entries[i]).Ok? && Within(ParseEntry(entries[i]).value, x)
  }

  predicate Accepted(entries: seq<string>) {
    entries != [] && forall i :: 0 <= i < |entries| ==> ParseEntry(entries[i]).Ok?
  }

  /** What parsing promises: the canonical list of exactly the denoted integers, or the first fault. */
  ghost predicate ParseSpec(entries: seq<string>, r: Result<seq<Range>, InvalidRange>) {
    if Accepted(entries) then
      && r.Ok? && Canonical(r.value) && r.value != []
      && (forall i :: 0 <= i < |r.value| ==> Bounded(r.value[i]))
      && (forall x :: InRanges(x, r.value) <==> Denotes(entries, x))
    else if entries == [] then
      r == Err(InvalidRange("", NoRanges))
    else
      exists i :: 0 <= i < |entries| && ParseEntry(entries[i]).Err? && r == Err(ParseEntry(entries[i]).error)
                  && forall k :: 0 <= k < i ==> ParseEntry(entries[k]).Ok?
  }

  method ParseVniRanges(entries: seq<string>) returns (r: Result<seq<Range>, InvalidRange>)
    ensures ParseSpec(entries, r)
  {
    var parsed: seq<Range> := [];
    for i := 0 to |entries|
      invariant |parsed| == i
      invariant forall k :: 0 <= k < i ==> ParseEntry(entries[k]) == Ok(parsed[k])
    {
      match ParseEntry(entries[i])
      case Err(e) => return Err(e);
      case Ok(range) => parsed := parsed + [range];
    }
    if parsed == [] {
      return Err(InvalidRange("", NoRanges));
    }
    var merged := MergeRanges(parsed);
    forall x ensures InRanges(x, merged) <==> Denotes(entries, x) {
      if Denotes(entries, x) {
        var i :| 0 <= i < |entries| && ParseEntry(entries[i]).Ok? && Within(ParseEntry(entries[i]).value, x);
        assert Within(parsed[i], x);
      }
    }
    MergedBounded(parsed, merged);
    return Ok(merged);
  }

  lemma MergedBounded(parsed: seq<Range>, merged: seq<Range>)
    requires forall i :: 0 <= i < |parsed| ==> Bounded(parsed[i])
    requires Canonical(merged) && forall x :: InRanges(x, merged) <==> InRanges(x, parsed)
    ensures forall i :: 0 <= i < |merged| ==> Bounded(merged[i])
  {
    forall i | 0 <= i < |merged| ensures Bounded(merged[i]) {
      assert Within(merged[i], merged[i].lo) && Within(merged[i], merged[i].hi);
      assert InRanges(merged[i].lo, parsed) && InRanges(merged[i].hi, parsed);
    }
  }

  /** Two accepted configurations that denote the same VNIs parse to the same list. */
  lemma ConfigurationIsCanonical(a: seq<string>, b: seq<string>,
                                 ra: Result<seq<Range>, InvalidRange>, rb: Result<seq<Range>, InvalidRange>)
    requires Accepted(a) && Accepted(b) && ParseSpec(a, ra) && ParseSpec(b, rb)
    requires forall x :: Denotes(a, x) <==> Denotes(b, x)
    ensures ra == rb
  {
    CanonicalUnique(ra.value, rb.value);
  }

  // ----- formatting

  function FormatRange(r: Range): string {
    IntText(r.lo) + ":" + IntText(r.hi)
  }

  function FormatEntries(ranges: seq<Range>): (entries: seq<string>)
    ensures |entries| == |ranges| && forall i :: 0 <= i < |ranges| ==> entries[i] == FormatRange(ranges[i])
  {
    seq(|ranges|, i requires 0 <= i < |ranges| => FormatRange(ranges[i]))
  }

  function FormatVniRanges(ranges: seq<Range>): string {
    Join(FormatEntries(ranges), ',')
  }

  /** The formatted text holds, between commas, each range as its two numbers around a colon. */
  lemma FormatMeaning(ranges: seq<Range>)
    requires ranges != [] && forall i :: 0 <= i < |ranges| ==> Bounded(ranges[i])
    ensures var parts := Split(FormatVniRanges(ranges), ',');
            |parts| == |ranges| &&
            forall i :: 0 <= i < |ranges| ==> parts[i] == IntText(ranges[i].lo) + ":" + IntText(ranges[i].hi)
  {
    FormattedDenotes(ranges);
    SplitJoin(FormatEntries(ranges), ',');
  }

  lemma EntryRoundTrip(r: Range)
    requires Bounded(r)
    ensures ParseEntry(FormatRange(r)) == Ok(r) && ',' !in FormatRange(r)
  {
    IntRoundTrip(r.lo);
    IntRoundTrip(r.hi);
    ColonEntry(IntText(r.lo), IntText(r.hi));
  }

  lemma ColonEntry(lo: string, hi: string)
    requires Unpadded(lo) && Unpadded(hi) && ':' !in lo
    ensures Strip(lo + ":" + hi) == lo + ":" + hi
    ensures Bounds(lo + ":" + hi) == (ParseInt(lo), ParseInt(hi))
  {
    var entry := lo + [':'] + hi;
    assert entry == lo + ":" + hi;
    assert entry[0] == lo[0] && entry[|entry| - 1] == hi[|hi| - 1];
    StripUnpadded(entry);
    FindFirst(lo, ':', hi);
    assert entry[..|lo|] == lo && entry[|lo| + 1..] == hi;
  }

  lemma FormattedDenotes(ranges: seq<Range>)
    requires ranges != [] && forall i :: 0 <= i < |ranges| ==> Bounded(ranges[i])
    ensures forall i :: 0 <= i < |ranges| ==> ',' !in FormatEntries(ranges)[i]
    ensures Accepted(FormatEntries(ranges)) && forall x :: Denotes(FormatEntries(ranges), x) <==> InRanges(x, ranges)
  {
    var entries := FormatEntries(ranges);
    forall i | 0 <= i < |ranges| ensures ParseEntry(entries[i]) == Ok(ranges[i]) && ',' !in entries[i] {
      EntryRoundTrip(ranges[i]);
    }
    forall x ensures Denotes(entries, x) <==> InRanges(x, ranges) {
      if InRanges(x, ranges) {
        var i :| 0 <= i < |ranges| && Within(ranges[i], x);
        assert Within(ParseEntry(entries[i]).value, x);
      }
    }
  }

  /** A canonical list survives being formatted, split at the commas and parsed again. */
  lemma FormatRoundTrip(ranges: seq<Range>, r: Result<seq<Range>, InvalidRange>)
    requires ranges != [] && Canonical(ranges) && forall i :: 0 <= i < |ranges| ==> Bounded(ranges[i])
    requires ParseSpec(Split(FormatVniRanges(ranges), ','), r)
    ensures r == Ok(ranges)
  {
    FormattedDenotes(ranges);
    SplitJoin(FormatEntries(ranges), ',');
    CanonicalUnique(r.value, ranges);
  }
}
