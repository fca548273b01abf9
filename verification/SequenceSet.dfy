/** UID lists as IMAP sequence-sets (`1:5,9,12:14`), and their chunks. */
module SequenceSet {
  import opened Wrappers
  import opened Text
  import opened Ordering

  const U32_END := 0x1_0000_0000

  type U32 = n: nat | n < U32_END

  const CHUNK_SIZE: nat := 200

  /** Every UID from lo to hi. */
  datatype Range = Range(lo: nat, hi: nat)

  ghost predicate Covers(ranges: seq<Range>, u: nat) {
    exists i :: 0 <= i < |ranges| && ranges[i].lo <= u <= ranges[i].hi
  }

  function Render(r: Range): string {
    if r.lo == r.hi then Decimal(r.lo) else Decimal(r.lo) + ":" + Decimal(r.hi)
  }

  function RenderAll(ranges: seq<Range>): (parts: seq<string>)
    ensures |parts| == |ranges| && forall i :: 0 <= i < |ranges| ==> parts[i] == Render(ranges[i])
  {
    seq(|ranges|, i requires 0 <= i < |ranges| => Render(ranges[i]))
  }

  /** Nonempty ranges in order, no two of them touching. */
  ghost predicate Apart(runs: seq<Range>) {
    && (forall i :: 0 <= i < |runs| ==> runs[i].lo <= runs[i].hi)
    && (forall i, j :: 0 <= i < j < |runs| ==> runs[i].hi + 1 < runs[j].lo)
  }

  lemma CoversPush(ranges: seq<Range>, r: Range, u: nat)
    ensures Covers(ranges + [r], u) <==> Covers(ranges, u) || r.lo <= u <= r.hi
  {
    var all := ranges + [r];
    if Covers(ranges, u) {
      var i :| 0 <= i < |ranges| && ranges[i].lo <= u <= ranges[i].hi;
      assert all[i].lo <= u <= all[i].hi;
    }
    if r.lo <= u <= r.hi {
      assert all[|ranges|].lo <= u <= all[|ranges|].hi;
    }
  }

  lemma {:induction false} Pigeonhole(at: seq<nat>, n: nat)
    requires forall i :: 0 <= i < |at| ==> at[i] < n
    requires forall i, j :: 0 <= i < j < |at| ==> at[i] != at[j]
    ensures |at| <= n
    decreases n
  {
    if at == [] {
    } else {
      assert at[0] < n;
    }
    if n == 0 {
    } else if n - 1 in at {
      var k :| 0 <= k < |at| && at[k] == n - 1;
      var rest := at[..k] + at[k + 1..];
      assert forall i :: 0 <= i < |rest| ==> rest[i] == at[if i < k then i else i + 1];
      Pigeonhole(rest, n - 1);
    } else {
      Pigeonhole(at, n - 1);
    }
  }

  lemma HomeExists(other: seq<Range>, u: nat) returns (k: nat)
    requires Covers(other, u)
    ensures k < |other| && other[k].lo <= u <= other[k].hi
  {
    k :| 0 <= k < |other| && other[k].lo <= u <= other[k].hi;
  }

  /** A range that covers the starts of two runs would cover the gap between them. */
  lemma RunsLiveApart(runs: seq<Range>, other: seq<Range>, i: nat, j: nat, k: nat)
    requires Apart(runs) && i < j < |runs| && k < |other|
    requires forall u :: Covers(other, u) <==> Covers(runs, u)
    ensures !(other[k].lo <= runs[i].lo && runs[j].lo <= other[k].hi)
  {
    var gap := runs[i].hi + 1;
    assert !Covers(runs, gap);
    assert !Covers(other, gap);
  }

  /** No ranges that cover the same numbers are fewer than ranges that lie apart. */
  lemma ApartIsFewest(runs: seq<Range>, other: seq<Range>)
    requires Apart(runs)
    requires forall u :: Covers(other, u) <==> Covers(runs, u)
    ensures |runs| <= |other|
  {
    var at: seq<nat> := [];
    for i := 0 to |runs|
      invariant |at| == i
      invariant forall k :: 0 <= k < i ==> at[k] < |other| && other[at[k]].lo <= runs[k].lo <= other[at[k]].hi
      invariant forall j, k :: 0 <= j < k < i ==> at[j] != at[k]
    {
      assert Covers(runs, runs[i].lo);
      var home := HomeExists(other, runs[i].lo);
      forall j | 0 <= j < i ensures at[j] != home {
        RunsLiveApart(runs, other, j, i, home);
      }
      at := at + [home];
    }
    Pigeonhole(at, |other|);
  }

  // ---- coalescing ----------------------------------------------------------

  /** The ranges are the maximal runs of the first n numbers of s. */
  ghost predicate RunsOf(s: seq<nat>, n: nat, runs: seq<Range>)
    requires n <= |s|
  {
    && Apart(runs)
    && (forall i :: 0 <= i < |runs| ==> n > 0 && runs[i].hi <= s[n - 1])
    && (forall u :: Covers(runs, u) <==> exists k :: 0 <= k < n && s[k] == u)
  }

  /** No run goes on past the first i numbers. */
  predicate Boundary(s: seq<nat>, i: nat) {
    0 < i < |s| ==> s[i] != s[i - 1] + 1
  }

  lemma {:induction false} Grows(s: seq<nat>, i: nat, j: nat)
    requires Increasing(s) && i <= j < |s|
    ensures s[j] - s[i] >= j - i
    decreases j
  {
    if i == j {
    } else {
      Grows(s, i, j - 1);
      assert s[j - 1] < s[j];
    }
  }

  lemma RunAppended(s: seq<nat>, first: nat, i: nat, runs: seq<Range>)
    requires Increasing(s) && first <= i < |s| && Boundary(s, first) && s[i] - s[first] == i - first
    requires RunsOf(s, first, runs)
    ensures RunsOf(s, i + 1, runs + [Range(s[first], s[i])])
  {
    var next := Range(s[first], s[i]);
    forall u: nat ensures Covers(runs + [next], u) <==> exists k :: 0 <= k < i + 1 && s[k] == u {
      CoversPush(runs, next, u);
      if s[first] <= u <= s[i] {
        var k := first + (u - s[first]);
        Grows(s, first, k);
        Grows(s, k, i);
        assert s[k] == u;
      }
      if k :| first <= k < i + 1 && s[k] == u {
        Grows(s, first, k);
        Grows(s, k, i);
      }
    }
    if first > 0 {
      assert s[first - 1] < s[first];
    }
  }

  /** The loops over the sorted UIDs, one part per run. The sum end + 1 is taken only
      when a larger UID follows, so it stays within 32 bits. */
  method CoalesceSorted(sorted: seq<nat>) returns (parts: seq<Range>)
    requires Increasing(sorted) && forall k :: 0 <= k < |sorted| ==> sorted[k] < U32_END
    ensures RunsOf(sorted, |sorted|, parts)
  {
    parts := [];
    var i := 0;
    while i < |sorted|
      invariant 0 <= i <= |sorted|
      invariant RunsOf(sorted, i, parts)
      invariant Boundary(sorted, i)
    {
      var start := sorted[i];
      var end := start;
      ghost var first := i;
      while i + 1 < |sorted| && (assert end < sorted[i + 1] && end + 1 < U32_END; sorted[i + 1] == end + 1)
        invariant first <= i < |sorted| && end == sorted[i]
        invariant end - start == i - first
      {
        end := sorted[i + 1];
        i := i + 1;
      }
      RunAppended(sorted, first, i, parts);
      parts := parts + [Range(start, end)];
      i := i + 1;
    }
  }

  /** Digits, colons and commas only. */
  ghost predicate SetCharacters(s: string) {
    forall i :: 0 <= i < |s| ==> '0' <= s[i] <= '9' || s[i] == ':' || s[i] == ','
  }

  lemma {:induction false} PrintedCharacters(parts: seq<string>)
    requires forall i :: 0 <= i < |parts| ==> SetCharacters(parts[i])
    ensures SetCharacters(Join(parts, ","))
  {
    if |parts| <= 1 {
    } else {
      PrintedCharacters(parts[1..]);
    }
  }

  /** The sequence-set of a UID list. Read by the grammar it denotes exactly the UIDs, in
      the fewest ranges, exactly when there is a UID and none is 0, which the grammar
      cannot name. */
  method CoalesceUids(uids: seq<U32>) returns (sequenceSet: string)
    ensures SetCharacters(sequenceSet)
    ensures ReadSet(sequenceSet).Some? <==> uids != [] && 0 !in uids
    ensures ReadSet(sequenceSet).Some? ==> forall u :: Covers(ReadSet(sequenceSet).value, u) <==> u in uids
    ensures ReadSet(sequenceSet).Some? ==> forall other ::
      (forall u :: Covers(other, u) <==> u in uids) ==> |ReadSet(sequenceSet).value| <= |other|
  {
    var sorted := SortNats(uids);
    forall k | 0 <= k < |sorted| ensures sorted[k] < U32_END {
      assert sorted[k] in sorted;
      var j :| 0 <= j < |uids| && uids[j] == sorted[k];
    }
    var parts := CoalesceSorted(sorted);
    sequenceSet := Join(RenderAll(parts), ",");
    PrintedCharacters(RenderAll(parts));
    assert forall u :: Covers(parts, u) <==> u in sorted;
    PrintedReadsBack(uids, parts);
    forall other | forall u :: Covers(other, u) <==> u in uids ensures |parts| <= |other| {
      ApartIsFewest(parts, other);
    }
  }

  // ---- reading a sequence-set (section 9 of RFC 3501, without "*") -----------

  function ReadNumber(s: string): Option<nat> {
    if s != "" && AllDigits(s) && s[0] != '0' && DecimalValue(s) < U32_END then Some(DecimalValue(s)) else None
  }

  /** seq-number or seq-range; the ends of a range may come in either order. */
  function ReadRange(s: string): Option<Range> {
    var ends := Split(s, ':');
    if |ends| == 1 then
      match ReadNumber(ends[0]) case Some(n) => Some(Range(n, n)) case None => None
    else if |ends| == 2 then
      match (ReadNumber(ends[0]), ReadNumber(ends[1]))
      case (Some(m), Some(n)) => Some(if m <= n then Range(m, n) else Range(n, m))
      case _ => None
    else None
  }

  function ReadRanges(parts: seq<string>): Option<seq<Range>> {
    if parts == [] then Some([])
    else match (ReadRange(parts[0]), ReadRanges(parts[1..]))
      case (Some(r), Some(rest)) => Some([r] + rest)
      case _ => None
  }

  function ReadSet(s: string): Option<seq<Range>> {
    ReadRanges(Split(s, ','))
  }

  lemma ReadDecimal(n: nat)
    requires n < U32_END
    ensures ReadNumber(Decimal(n)) == if n == 0 then None else Some(n)
  {
    DecimalRoundTrip(n);
  }

  lemma ReadRendered(r: Range)
    requires r.lo <= r.hi < U32_END
    ensures ReadRange(Render(r)) == if r.lo == 0 then None else Some(r)
    ensures ',' !in Render(r)
  {
    ReadDecimal(r.lo);
    ReadDecimal(r.hi);
    SplitNone(Decimal(r.lo), ':');
    SplitNone(Decimal(r.hi), ':');
    SplitPrefix(Decimal(r.lo), Decimal(r.hi), ':');
  }

  predicate ZeroFree(ranges: seq<Range>) {
    ranges == [] || (ranges[0].lo != 0 && ZeroFree(ranges[1..]))
  }

  lemma {:induction false} ZeroFreeIff(ranges: seq<Range>)
    ensures ZeroFree(ranges) <==> forall i :: 0 <= i < |ranges| ==> ranges[i].lo != 0
  {
    if ranges == [] {
    } else {
      ZeroFreeIff(ranges[1..]);
      assert forall i :: 0 < i < |ranges| ==> ranges[i] == ranges[1..][i - 1];
    }
  }

  lemma {:induction false} ReadRenderedAll(ranges: seq<Range>)
    requires forall i :: 0 <= i < |ranges| ==> ranges[i].lo <= ranges[i].hi < U32_END
    ensures ReadRanges(RenderAll(ranges)) == if ZeroFree(ranges) then Some(ranges) else None
  {
    if ranges == [] {
    } else {
      ReadRendered(ranges[0]);
      ReadRenderedAll(ranges[1..]);
      assert RenderAll(ranges)[1..] == RenderAll(ranges[1..]);
      assert ranges == [ranges[0]] + ranges[1..];
    }
  }

  lemma PrintedReadsBack(uids: seq<U32>, runs: seq<Range>)
    requires Apart(runs) && forall u :: Covers(runs, u) <==> u in uids
    ensures ReadSet(Join(RenderAll(runs), ",")) == if uids != [] && 0 !in uids then Some(runs) else None
  {
    assert uids != [] ==> Covers(runs, uids[0]);
    if runs == [] {
      assert Split("", ',') == [""];
    } else {
      forall i | 0 <= i < |runs| ensures runs[i].hi in uids && runs[i].lo in uids && ',' !in RenderAll(runs)[i] {
        assert Covers(runs, runs[i].hi) && Covers(runs, runs[i].lo);
        ReadRendered(runs[i]);
      }
      SplitOfJoin(RenderAll(runs), ',');
      ReadRenderedAll(runs);
      ZeroFreeIff(runs);
      assert 0 in uids ==> Covers(runs, 0);
    }
  }

  // ---- chunks --------------------------------------------------------------

  function Concat(chunks: seq<seq<nat>>): seq<nat> {
    if chunks == [] then [] else chunks[0] + Concat(chunks[1..])
  }

  function Chunks(s: seq<nat>): (chunks: seq<seq<nat>>)
    ensures Concat(chunks) == s
    ensures forall i :: 0 <= i < |chunks| ==> 0 < |chunks[i]| <= CHUNK_SIZE
    ensures forall i :: 0 <= i < |chunks| - 1 ==> |chunks[i]| == CHUNK_SIZE
  {
    if s == [] then []
    else if |s| <= CHUNK_SIZE then [s]
    else [s[..CHUNK_SIZE]] + Chunks(s[CHUNK_SIZE..])
  }

  /** Sorted, without repetitions, cut every CHUNK_SIZE: the chunks partition the UIDs. */
  function ChunkUids(uids: seq<nat>): (chunks: seq<seq<nat>>)
    ensures Increasing(Concat(chunks)) && forall u :: u in Concat(chunks) <==> u in uids
    ensures forall i :: 0 <= i < |chunks| ==> 0 < |chunks[i]| <= 200
    ensures forall i :: 0 <= i < |chunks| - 1 ==> |chunks[i]| == 200
  {
    Chunks(SortNats(uids))
  }
}
