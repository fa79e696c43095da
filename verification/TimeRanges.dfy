// How the Prometheus importer cuts an interval into query ranges. Times and
// durations are integers (nanoseconds); the zero time is a whole minute.
module TimeRanges {
  import opened Sequences

  const MINUTE: int := 60_000_000_000

  datatype Range = Range(start: int, end: int, step: int)

  datatype Query = Query(end: int, chunk: int, step: int, maxRanges: int, allowIncomplete: bool)

  ghost predicate Aligned(t: int) {
    t % MINUTE == 0
  }

  // truncateToSecond, which truncates to the minute.
  function Trunc(t: int): (u: int)
    ensures Aligned(u) && u <= t < u + MINUTE
  {
    t - t % MINUTE
  }

  lemma TruncUnique(t: int, u: int)
    requires Aligned(u) && u <= t < u + MINUTE
    ensures Trunc(t) == u
  {
  }

  // Two whole minutes that differ are a minute apart.
  lemma AlignedGap(a: int, b: int)
    requires Aligned(a) && Aligned(b) && a < b
    ensures a + MINUTE <= b
  {
  }

  lemma AlignedStep(a: int)
    requires Aligned(a)
    ensures Aligned(a + MINUTE) && Trunc(a + MINUTE) == a + MINUTE && Trunc(a) == a
  {
  }

  lemma TruncMonotone(s: int, t: int)
    ensures s <= t ==> Trunc(s) <= Trunc(t)
    ensures s + MINUTE <= t ==> s < Trunc(t)
    ensures Aligned(s) ==> Trunc(s) == s
  {
  }

  // The end of the range that starts at s, clipped to the end of the query.
  function ChunkEnd(q: Query, s: int): int {
    var e := Trunc(s + q.chunk);
    if q.allowIncomplete && e > q.end then Trunc(q.end) else e
  }

  // The range that starts at s is not queried.
  predicate Stops(q: Query, s: int) {
    var e := ChunkEnd(q, s);
    if q.allowIncomplete then e == s else e > q.end || e - s < q.chunk
  }

  // The range that starts at s reaches the end of the query.
  predicate IsLast(q: Query, s: int) {
    q.allowIncomplete && ChunkEnd(q, s) == Trunc(q.end)
  }

  // The time from the start of one whole chunk to the start of the next.
  function Period(q: Query): int {
    Trunc(q.chunk) + Trunc(q.step)
  }

  // The loop of getTimeRangesChunked ends when it sets out from s: it is capped,
  // or each chunk starts later than the one before, or the first is the last. In
  // all other cases the source goes on for ever.
  predicate Ends(q: Query, s: int) {
    q.maxRanges > 0 || Period(q) > 0 || Stops(q, s) || IsLast(q, s)
  }

  lemma TruncFrom(s: int, d: int)
    requires Aligned(s)
    ensures Trunc(s + d) == s + Trunc(d)
  {
  }

  // How the loop gets from one chunk to the next.
  lemma NextChunk(q: Query, s: int)
    requires Aligned(s) && !Stops(q, s) && !IsLast(q, s)
    ensures var e := ChunkEnd(q, s);
      && e == s + Trunc(q.chunk) && e <= Trunc(q.end) && (q.allowIncomplete ==> e < Trunc(q.end))
      && Trunc(e + q.step) == s + Period(q) && Aligned(s + Period(q))
  {
    TruncFrom(s, q.chunk);
    TruncFrom(ChunkEnd(q, s), q.step);
    TruncMonotone(ChunkEnd(q, s), q.end);
  }

  // A loop that does not end by these conditions is in the same position at the
  // next chunk.
  lemma GoesOnForEver(q: Query, s: int)
    requires Aligned(s) && !Ends(q, s)
    ensures !Stops(q, s) && !IsLast(q, s) && !Ends(q, Trunc(ChunkEnd(q, s) + q.step))
  {
    NextChunk(q, s);
    TruncFrom(s, q.chunk);
    TruncFrom(s + Period(q), q.chunk);
  }

  // The ranges from chunkStart s on, when i of them have been made.
  function Ranges(q: Query, s: int, i: nat): seq<Range>
    requires Ends(q, s) && Aligned(s)
    decreases if q.maxRanges > 0 then q.maxRanges - i else 0, if q.maxRanges > 0 then 0 else Room(q, s)
  {
    if (q.maxRanges > 0 && i >= q.maxRanges) || Stops(q, s) then []
    else
      var e := ChunkEnd(q, s);
      var r := Range(s, e, q.step);
      if IsLast(q, s) then [r]
      else
        NextChunk(q, s);
        [r] + Ranges(q, Trunc(e + q.step), i + 1)
  }

  // What is left of the query after a whole chunk from s.
  function Room(q: Query, s: int): int {
    Trunc(q.end) - s - Trunc(q.chunk)
  }

  // The three ways the loop goes on from chunkStart s, as seen from the outside.
  lemma RangesEnd(q: Query, s: int, i: nat)
    requires Ends(q, s) && Aligned(s) && ((q.maxRanges > 0 && i >= q.maxRanges) || Stops(q, s))
    ensures Ranges(q, s, i) == []
  {
  }

  lemma RangesLast(q: Query, s: int, i: nat)
    requires Ends(q, s) && Aligned(s) && (q.maxRanges <= 0 || i < q.maxRanges) && !Stops(q, s)
    requires IsLast(q, s)
    ensures Ranges(q, s, i) == [Range(s, ChunkEnd(q, s), q.step)]
  {
  }

  lemma RangesGoOn(q: Query, s: int, i: nat, whole: seq<Range>, made: seq<Range>)
    requires Ends(q, s) && Aligned(s) && (q.maxRanges <= 0 || i < q.maxRanges) && !Stops(q, s)
    requires !IsLast(q, s)
    requires whole == made + Ranges(q, s, i)
    ensures var e := ChunkEnd(q, s);
      && whole == (made + [Range(s, e, q.step)]) + Ranges(q, Trunc(e + q.step), i + 1)
      && (q.maxRanges <= 0 ==> Room(q, s) >= 0 && Room(q, Trunc(e + q.step)) < Room(q, s))
      && Ends(q, Trunc(e + q.step))
  {
    var e := ChunkEnd(q, s);
    NextChunk(q, s);
    var r, rest := [Range(s, e, q.step)], Ranges(q, Trunc(e + q.step), i + 1);
    assert made + (r + rest) == (made + r) + rest;
  }

  method GetTimeRangesChunked(beginTime: int, q: Query) returns (ranges: seq<Range>)
    requires Ends(q, Trunc(beginTime))
    ensures ranges == Ranges(q, Trunc(beginTime), 0)
  {
    hide Ranges, Trunc;
    var chunkStart := Trunc(beginTime);
    var chunkEnd := Trunc(chunkStart + q.chunk);
    var disableMax := q.maxRanges <= 0;
    ranges := [];
    var i := 0;
    ghost var whole := Ranges(q, chunkStart, 0);
    while disableMax || i < q.maxRanges
      invariant 0 <= i && Aligned(chunkStart) && chunkEnd == Trunc(chunkStart + q.chunk)
      invariant Ends(q, chunkStart) && whole == ranges + Ranges(q, chunkStart, i)
      decreases if disableMax then 0 else q.maxRanges - i, if disableMax then Room(q, chunkStart) else 0
    {
      if q.allowIncomplete {
        if chunkEnd > q.end {
          chunkEnd := Trunc(q.end);
        }
        if chunkEnd == chunkStart {
          RangesEnd(q, chunkStart, i);
          return;
        }
      } else {
        if chunkEnd > q.end {
          RangesEnd(q, chunkStart, i);
          return;
        }
        if chunkEnd - chunkStart < q.chunk {
          RangesEnd(q, chunkStart, i);
          return;
        }
      }
      if q.allowIncomplete && chunkEnd == Trunc(q.end) {
        RangesLast(q, chunkStart, i);
        ranges := ranges + [Range(chunkStart, chunkEnd, q.step)];
        return;
      }
      RangesGoOn(q, chunkStart, i, whole, ranges);
      ranges := ranges + [Range(chunkStart, chunkEnd, q.step)];
      chunkStart := Trunc(chunkEnd + q.step);
      chunkEnd := Trunc(chunkStart + q.chunk);
      i := i + 1;
    }
    RangesEnd(q, chunkStart, i);
  }

  // --------------------------------------------- ranges never overlap or go back

  // Each range starts after all the ranges before it have ended.
  ghost predicate Ascending(rs: seq<Range>) {
    forall i, j :: 0 <= i < j < |rs| ==> rs[i].end < rs[j].start && rs[i].end < rs[j].end
  }

  ghost predicate AllAligned(rs: seq<Range>) {
    forall i :: 0 <= i < |rs| ==> Aligned(rs[i].start) && Aligned(rs[i].end)
  }

  // The ranges rs of query q, from chunkStart s on: they ascend and end by the
  // end of the query. A range starts after its own end exactly when it starts
  // past the last whole minute of the query, and then it is the last one.
  ghost predicate Laid(q: Query, s: int, rs: seq<Range>) {
    && Ascending(rs) && AllAligned(rs)
    && (rs != [] ==> rs[0].start == s)
    && (forall k :: 0 <= k < |rs| ==> s <= rs[k].start && rs[k].end <= q.end)
    && (forall k :: 0 <= k < |rs| ==> s <= rs[k].end || (q.allowIncomplete && rs[k].end == Trunc(q.end)))
    && (forall k :: 0 <= k < |rs| ==> (rs[k].start > rs[k].end <==> rs[k].start > Trunc(q.end)))
    && (forall k :: 0 <= k < |rs| ==> rs[k].start > rs[k].end ==> q.allowIncomplete && k == |rs| - 1)
  }

  lemma LaidCons(q: Query, s: int, e: int, t: int, rest: seq<Range>)
    requires Aligned(s) && Aligned(e) && s <= e < t && e <= q.end && (q.allowIncomplete ==> e < Trunc(q.end))
    requires Laid(q, t, rest)
    ensures Laid(q, s, [Range(s, e, q.step)] + rest)
  {
    hide Trunc, Ascending;
    TruncMonotone(e, q.end);
    AscendingCons(Range(s, e, q.step), rest);
  }

  lemma AscendingCons(r: Range, rest: seq<Range>)
    requires Ascending(rest) && forall k :: 0 <= k < |rest| ==> r.end < rest[k].start && r.end < rest[k].end
    ensures Ascending([r] + rest)
  {
  }

  lemma ChunkEndFacts(q: Query, s: int)
    requires Aligned(s) && q.chunk >= 0
    ensures var e := ChunkEnd(q, s);
      && Aligned(e) && (s <= e || (q.allowIncomplete && e == Trunc(q.end)))
      && (!Stops(q, s) ==> e <= q.end && (e < s <==> Trunc(q.end) < s))
  {
    TruncMonotone(s, s + q.chunk);
    TruncMonotone(s, q.end);
  }

  // With steps of a minute or more no range overlaps an earlier one.
  lemma {:induction false} RangesAscend(q: Query, s: int, i: nat)
    requires Ends(q, s) && Aligned(s) && q.chunk >= 0 && q.step >= MINUTE
    ensures Laid(q, s, Ranges(q, s, i))
    decreases if q.maxRanges > 0 then q.maxRanges - i else 0, if q.maxRanges > 0 then 0 else Room(q, s)
  {
    hide Laid, Trunc, Aligned, Period, ChunkEnd, Stops;
    ChunkEndFacts(q, s);
    PeriodPositive(q);
    if (q.maxRanges > 0 && i >= q.maxRanges) || Stops(q, s) {
      LaidNone(q, s);
    } else {
      var e := ChunkEnd(q, s);
      if IsLast(q, s) {
        LaidOne(q, s, e);
      } else {
        NextChunk(q, s);
        var t := Trunc(e + q.step);
        TruncMonotone(e, e + q.step);
        TruncMonotone(e, q.end);
        RangesAscend(q, t, i + 1);
        LaidCons(q, s, e, t, Ranges(q, t, i + 1));
      }
    }
  }

  lemma LaidNone(q: Query, s: int)
    ensures Laid(q, s, [])
  {
  }

  lemma LaidOne(q: Query, s: int, e: int)
    requires Aligned(s) && Aligned(e) && q.allowIncomplete && e == Trunc(q.end)
    ensures Laid(q, s, [Range(s, e, q.step)])
  {
  }

  ghost predicate HasInverted(rs: seq<Range>) {
    exists k :: 0 <= k < |rs| && rs[k].start > rs[k].end
  }

  // The cap leaves room for the n-th range from here.
  predicate Allows(q: Query, n: int) {
    q.maxRanges <= 0 || n < q.maxRanges
  }

  // The end of the query falls into the gap between two chunks, and the cap lets
  // the range after the gap through.
  predicate EndsInGap(q: Query, s: int, i: nat)
    requires Period(q) > 0
  {
    var left := Trunc(q.end) - s;
    q.chunk >= MINUTE && Rest(left, Period(q)) > Trunc(q.chunk) && Allows(q, i + Times(left, Period(q)) + 1)
  }

  // How often p goes into a, and what is left over.
  function Times(a: int, p: int): (k: nat)
    requires p > 0
    decreases a
  {
    if a < p then 0 else 1 + Times(a - p, p)
  }

  function Rest(a: int, p: int): (r: int)
    requires p > 0
    ensures r < p && (a >= 0 ==> r >= 0)
    decreases a
  {
    if a < p then a else Rest(a - p, p)
  }

  // They are the quotient and the remainder.
  lemma {:induction false} TimesRest(a: int, p: int)
    requires p > 0
    ensures a == p * Times(a, p) + Rest(a, p)
    decreases a
  {
    if a >= p {
      TimesRest(a - p, p);
      assert p * (1 + Times(a - p, p)) == p + p * Times(a - p, p);
    }
  }

  lemma PastTheEnd(q: Query, s: int, i: nat)
    requires Aligned(s) && q.allowIncomplete && q.chunk >= 0 && Trunc(q.end) < s
    ensures Ends(q, s)
    ensures Ranges(q, s, i) == if Allows(q, i) then [Range(s, Trunc(q.end), q.step)] else []
  {
    TruncMonotone(s, s + q.chunk);
    TruncMonotone(s, q.end);
  }

  lemma PeriodPositive(q: Query)
    requires q.chunk >= 0 && q.step >= MINUTE
    ensures Trunc(q.chunk) >= 0 && Trunc(q.chunk) < Period(q) && (q.chunk >= MINUTE <==> Trunc(q.chunk) > 0)
  {
    TruncMonotone(0, q.chunk);
    TruncMonotone(MINUTE, q.chunk);
    TruncMonotone(MINUTE, q.step);
  }

  lemma WholeChunksForward(q: Query, s: int, i: nat)
    requires Ends(q, s) && Aligned(s) && q.chunk >= 0 && q.step >= MINUTE && !q.allowIncomplete
    ensures !HasInverted(Ranges(q, s, i))
  {
    RangesAscend(q, s, i);
    hide Ranges;
  }

  // A chunk that reaches the end of the query, or is empty, is the last.
  lemma LastChunkForward(q: Query, s: int, i: nat)
    requires Ends(q, s) && Aligned(s) && q.chunk >= 0 && q.allowIncomplete && s <= Trunc(q.end)
    requires Trunc(q.end) - s <= Trunc(q.chunk) || Trunc(q.chunk) == 0
    ensures !HasInverted(Ranges(q, s, i))
  {
    TruncFrom(s, q.chunk);
    TruncMonotone(s, q.end);
    TruncMonotone(s + Trunc(q.chunk), q.end);
    hide Trunc;
    assert Stops(q, s) || IsLast(q, s);
  }

  lemma NoGapInside(q: Query, s: int, i: nat)
    requires 0 <= Trunc(q.end) - s && Trunc(q.chunk) < Period(q) && (q.chunk >= MINUTE <==> Trunc(q.chunk) > 0)
    requires Trunc(q.end) - s <= Trunc(q.chunk) || Trunc(q.chunk) == 0
    ensures Period(q) > 0 ==> !EndsInGap(q, s, i)
  {
    hide Trunc, Period, Allows;
    var left := Trunc(q.end) - s;
    assert left <= Trunc(q.chunk) && Period(q) > 0 ==> Rest(left, Period(q)) == left;
  }

  lemma NotAllowed(q: Query, s: int, i: nat)
    requires Ends(q, s) && Aligned(s) && Period(q) > 0 && !Allows(q, i) && s <= Trunc(q.end)
    ensures Ranges(q, s, i) == [] && !HasInverted([]) && !EndsInGap(q, s, i)
  {
    hide Trunc, Period, Rest;
  }

  lemma InsideChunk(q: Query, s: int)
    requires Aligned(s) && q.allowIncomplete && Trunc(q.end) - s > Trunc(q.chunk) > 0
    ensures !Stops(q, s) && !IsLast(q, s) && ChunkEnd(q, s) == s + Trunc(q.chunk)
  {
    TruncFrom(s, q.chunk);
  }

  lemma InvertedCons(r: Range, rest: seq<Range>)
    requires r.start <= r.end
    ensures HasInverted([r] + rest) <==> HasInverted(rest)
  {
    if HasInverted(rest) {
      var k :| 0 <= k < |rest| && rest[k].start > rest[k].end;
      assert ([r] + rest)[k + 1] == rest[k];
    }
  }

  lemma OneInverted(r: Range)
    requires r.start > r.end
    ensures HasInverted([r]) && !HasInverted([])
  {
    assert [r][0] == r;
  }

  lemma GapStep(q: Query, s: int, i: nat)
    requires q.chunk >= MINUTE && Period(q) > Trunc(q.chunk) > 0 && Trunc(q.end) - s > Trunc(q.chunk)
    ensures EndsInGap(q, s, i) <==>
      if Trunc(q.end) < s + Period(q) then Allows(q, i + 1) else EndsInGap(q, s + Period(q), i + 1)
  {
    hide Trunc, Period, Allows;
    var left, p := Trunc(q.end) - s, Period(q);
    assert if left < p then Times(left, p) == 0 && Rest(left, p) == left
           else Times(left, p) == 1 + Times(left - p, p) && Rest(left, p) == Rest(left - p, p);
  }

  // Some range starts after its own end exactly if incomplete chunks are allowed
  // and the query ends before it begins, or ends in the gap between two chunks.
  lemma {:induction false} InvertedIff(q: Query, s: int, i: nat)
    requires Aligned(s) && q.chunk >= 0 && q.step >= MINUTE
    ensures Ends(q, s) && Period(q) > 0
    ensures HasInverted(Ranges(q, s, i)) <==>
      q.allowIncomplete && if Trunc(q.end) < s then Allows(q, i) else EndsInGap(q, s, i)
    decreases if q.maxRanges > 0 then q.maxRanges - i else 0, if q.maxRanges > 0 then 0 else Room(q, s)
  {
    hide HasInverted, EndsInGap, Ranges, Trunc, Period, Aligned, ChunkEnd, Stops, IsLast;
    PeriodPositive(q);
    var left, p := Trunc(q.end) - s, Period(q);
    if !q.allowIncomplete {
      WholeChunksForward(q, s, i);
    } else if left < 0 {
      PastTheEnd(q, s, i);
      OneInverted(Range(s, Trunc(q.end), q.step));
    } else if left <= Trunc(q.chunk) || Trunc(q.chunk) == 0 {
      LastChunkForward(q, s, i);
      NoGapInside(q, s, i);
    } else if !Allows(q, i) {
      NotAllowed(q, s, i);
    } else {
      InsideChunk(q, s);
      NextChunk(q, s);
      var r := Range(s, s + Trunc(q.chunk), q.step);
      RangesGoOn(q, s, i, [] + Ranges(q, s, i), []);
      assert [] + Ranges(q, s, i) == Ranges(q, s, i) && [] + [r] == [r];
      InvertedIff(q, s + p, i + 1);
      InvertedCons(r, Ranges(q, s + p, i + 1));
      GapStep(q, s, i);
    }
  }

  // With steps of exactly a minute there is no gap to end in.
  lemma MinuteStepsForward(q: Query, s: int, i: nat)
    requires Aligned(s) && q.chunk >= 0 && q.step == MINUTE && s <= Trunc(q.end)
    ensures Ends(q, s) && !HasInverted(Ranges(q, s, i))
  {
    hide Ranges, HasInverted, EndsInGap, Ends, Trunc, Period, Aligned;
    InvertedIff(q, s, i);
    MinutePeriod(q, s);
    NoGapOfAMinute(Trunc(q.end) - s, Trunc(q.chunk));
    GapIsLeft(q, s, i);
  }

  lemma MinutePeriod(q: Query, s: int)
    requires q.step == MINUTE && Aligned(s) && q.chunk >= 0
    ensures Period(q) == Trunc(q.chunk) + MINUTE && Trunc(q.chunk) >= 0 && Aligned(Trunc(q.end) - s)
  {
    TruncMonotone(0, q.chunk);
    TruncMonotone(MINUTE, q.step);
  }

  lemma GapIsLeft(q: Query, s: int, i: nat)
    requires Period(q) > 0 && Rest(Trunc(q.end) - s, Period(q)) <= Trunc(q.chunk)
    ensures !EndsInGap(q, s, i)
  {
    hide Trunc, Period, Allows, Times, Rest;
  }

  lemma NoGapOfAMinute(left: int, c: int)
    requires Aligned(left) && Aligned(c) && c >= 0
    ensures Rest(left, c + MINUTE) <= c
  {
    hide Rest, Aligned;
    AlignedStep(c);
    AlignedRest(left, c + MINUTE);
    if Rest(left, c + MINUTE) > c {
      AlignedGap(c, Rest(left, c + MINUTE));
    }
  }

  lemma {:induction false} AlignedRest(a: int, p: int)
    requires Aligned(a) && Aligned(p) && p > 0
    ensures Aligned(Rest(a, p))
    decreases a
  {
    if a >= p {
      AlignedRest(a - p, p);
    }
  }

  // Six minutes in chunks of four with steps of three: the last range starts at
  // minute seven and ends at minute six.
  lemma InvertedRangeExample()
    ensures Ranges(Query(6 * MINUTE, 4 * MINUTE, 3 * MINUTE, 0, true), 0, 0) ==
      [Range(0, 4 * MINUTE, 3 * MINUTE), Range(7 * MINUTE, 6 * MINUTE, 3 * MINUTE)]
  {
    var q := Query(6 * MINUTE, 4 * MINUTE, 3 * MINUTE, 0, true);
    PastTheEnd(q, 7 * MINUTE, 1);
    NextChunk(q, 0);
  }

  // Where the range after those of rs would start.
  function NextStart(q: Query, s: int, rs: seq<Range>): int {
    if rs == [] then s else Trunc(rs[|rs| - 1].end + q.step)
  }

  // The ranges are whole chunks, but for one that ends with the query, and they
  // stop only at the cap, at the end of the query or in front of a last chunk
  // that would be incomplete and may not be.
  ghost predicate Exhausts(q: Query, s: int, i: nat, rs: seq<Range>) {
    && (forall k :: 0 <= k < |rs| ==>
          && rs[k].step == q.step
          && (rs[k].end == rs[k].start + Trunc(q.chunk)
              || (q.allowIncomplete && k == |rs| - 1 && rs[k].end == Trunc(q.end))))
    && var t := NextStart(q, s, rs);
       || (q.maxRanges > 0 && i + |rs| >= q.maxRanges)
       || (q.allowIncomplete && (t == Trunc(q.end) || q.chunk < MINUTE))
       || (q.allowIncomplete && rs != [] && rs[|rs| - 1].end == Trunc(q.end))
       || (!q.allowIncomplete && (t + Trunc(q.chunk) > q.end || !Aligned(q.chunk)))
  }

  lemma ExhaustsCons(q: Query, s: int, e: int, i: nat, rest: seq<Range>)
    requires e == s + Trunc(q.chunk) && Exhausts(q, Trunc(e + q.step), i + 1, rest)
    ensures Exhausts(q, s, i, [Range(s, e, q.step)] + rest)
  {
    hide Trunc;
    var rs := [Range(s, e, q.step)] + rest;
    assert rest != [] ==> rs[|rs| - 1] == rest[|rest| - 1];
  }

  lemma StopsWhere(q: Query, s: int)
    requires Aligned(s) && q.chunk >= 0 && Stops(q, s)
    ensures if q.allowIncomplete then s == Trunc(q.end) || q.chunk < MINUTE
            else s + Trunc(q.chunk) > q.end || !Aligned(q.chunk)
  {
    TruncFrom(s, q.chunk);
    TruncMonotone(MINUTE, q.chunk);
  }

  // Nothing that could be queried is left out.
  lemma {:induction false} RangesExhaust(q: Query, s: int, i: nat)
    requires Ends(q, s) && Aligned(s) && q.chunk >= 0
    ensures Exhausts(q, s, i, Ranges(q, s, i))
    decreases if q.maxRanges > 0 then q.maxRanges - i else 0, if q.maxRanges > 0 then 0 else Room(q, s)
  {
    hide Exhausts, Trunc, Aligned, Stops, ChunkEnd;
    if (q.maxRanges > 0 && i >= q.maxRanges) || Stops(q, s) {
      ExhaustsNone(q, s, i);
    } else if IsLast(q, s) {
      ExhaustsOne(q, s, i, ChunkEnd(q, s));
    } else {
      NextChunk(q, s);
      var e := ChunkEnd(q, s);
      RangesExhaust(q, Trunc(e + q.step), i + 1);
      ExhaustsCons(q, s, e, i, Ranges(q, Trunc(e + q.step), i + 1));
    }
  }

  lemma ExhaustsNone(q: Query, s: int, i: nat)
    requires Aligned(s) && q.chunk >= 0 && ((q.maxRanges > 0 && i >= q.maxRanges) || Stops(q, s))
    ensures Exhausts(q, s, i, [])
  {
    hide Trunc, Aligned, Stops;
    if Stops(q, s) {
      StopsWhere(q, s);
    }
  }

  lemma ExhaustsOne(q: Query, s: int, i: nat, e: int)
    requires q.allowIncomplete && e == Trunc(q.end)
    ensures Exhausts(q, s, i, [Range(s, e, q.step)])
  {
    hide Trunc;
  }

  // ------------------------------------------------ minute steps leave no gaps

  // The whole minutes from a to b, in order.
  function Minutes(a: int, b: int): seq<int>
    decreases b - a
  {
    if a > b then [] else [a] + Minutes(a + MINUTE, b)
  }

  // The minutes a list of ranges asks for, range after range.
  function Asked(rs: seq<Range>): seq<int> {
    if rs == [] then [] else Minutes(rs[0].start, rs[0].end) + Asked(rs[1..])
  }

  lemma {:induction false} MinutesJoin(a: int, b: int, c: int)
    requires Aligned(a) && Aligned(b) && a <= b + MINUTE && b <= c
    ensures Minutes(a, b) + Minutes(b + MINUTE, c) == Minutes(a, c)
    decreases b - a
  {
    if a <= b {
      if a < b {
        AlignedGap(a, b);
      }
      AlignedStep(a);
      MinutesJoin(a + MINUTE, b, c);
      Assoc([a], Minutes(a + MINUTE, b), Minutes(b + MINUTE, c));
    } else {
      AlignedGap(b, a);
    }
  }

  lemma AskedCons(r: Range, rest: seq<Range>)
    ensures Asked([r] + rest) == Minutes(r.start, r.end) + Asked(rest)
  {
    assert ([r] + rest)[1..] == rest;
  }

  lemma {:induction false} AskedAppend(a: seq<Range>, b: seq<Range>)
    ensures Asked(a + b) == Asked(a) + Asked(b)
  {
    if a == [] {
      assert a + b == b;
    } else {
      hide Minutes;
      AskedAppend(a[1..], b);
      AskedCons(a[0], a[1..] + b);
      assert a + b == [a[0]] + (a[1..] + b);
      Assoc(Minutes(a[0].start, a[0].end), Asked(a[1..]), Asked(b));
    }
  }

  // Each range starts a minute after the one before it ended.
  ghost predicate Linked(rs: seq<Range>) {
    && (forall k :: 0 <= k < |rs| ==> rs[k].start <= rs[k].end)
    && (forall k :: 0 < k < |rs| ==> rs[k].start == rs[k - 1].end + MINUTE)
  }

  // The ranges rs ask for every minute from s to the end of the last one, each
  // once and in order, and none is longer than a chunk.
  ghost predicate Gapless(q: Query, s: int, rs: seq<Range>) {
    && AllAligned(rs) && Linked(rs)
    && (rs != [] ==> rs[0].start == s && s <= rs[|rs| - 1].end <= q.end)
    && (rs != [] ==> Asked(rs) == Minutes(s, rs[|rs| - 1].end))
    && (forall k :: 0 <= k < |rs| ==> 0 <= rs[k].end - rs[k].start <= q.chunk)
  }

  lemma GaplessCons(q: Query, s: int, e: int, rest: seq<Range>)
    requires Aligned(s) && Aligned(e) && s <= e <= q.end && e - s <= q.chunk
    requires Gapless(q, e + MINUTE, rest)
    ensures Gapless(q, s, [Range(s, e, q.step)] + rest)
  {
    hide Minutes;
    var r := Range(s, e, q.step);
    var rs := [r] + rest;
    assert rs[1..] == rest;
    if rest == [] {
      assert Asked(rs) == Minutes(s, e) + [];
    } else {
      assert rs[|rs| - 1] == rest[|rest| - 1];
      MinutesJoin(s, e, rest[|rest| - 1].end);
    }
  }

  // No chunk is longer than the chunk size.
  lemma ChunkLength(q: Query, s: int)
    requires Aligned(s) && q.chunk >= 0
    ensures ChunkEnd(q, s) - s <= q.chunk
  {
    TruncMonotone(s + q.chunk, q.end);
    TruncFrom(s, q.chunk);
  }

  // With a step of exactly one minute the ranges have no gap and no overlap.
  lemma {:induction false} MinuteStepsCover(q: Query, s: int, i: nat)
    requires Ends(q, s) && Aligned(s) && q.chunk >= 0 && q.step == MINUTE && (q.allowIncomplete ==> s <= Trunc(q.end))
    ensures Gapless(q, s, Ranges(q, s, i))
    ensures q.maxRanges > 0 ==> |Ranges(q, s, i)| <= if i <= q.maxRanges then q.maxRanges - i else 0
    decreases if q.maxRanges > 0 then q.maxRanges - i else 0, if q.maxRanges > 0 then 0 else Room(q, s)
  {
    hide Gapless, Asked, Trunc, Aligned, Period, ChunkEnd, Stops;
    ChunkEndFacts(q, s);
    PeriodPositive(q);
    GaplessNone(q, s);
    if !((q.maxRanges > 0 && i >= q.maxRanges) || Stops(q, s)) {
      var e := ChunkEnd(q, s);
      ChunkLength(q, s);
      if IsLast(q, s) {
        GaplessNone(q, e + MINUTE);
        GaplessCons(q, s, e, []);
        assert [Range(s, e, q.step)] + [] == [Range(s, e, q.step)];
      } else {
        NextChunk(q, s);
        AlignedStep(e);
        if e < Trunc(q.end) {
          AlignedGap(e, Trunc(q.end));
        }
        MinuteStepsCover(q, e + MINUTE, i + 1);
        GaplessCons(q, s, e, Ranges(q, e + MINUTE, i + 1));
      }
    }
  }

  lemma GaplessNone(q: Query, s: int)
    ensures Gapless(q, s, [])
  {
  }

  lemma StopsAtTheEnd(q: Query, s: int)
    requires Aligned(s) && q.chunk >= MINUTE && q.allowIncomplete && s <= Trunc(q.end)
    ensures Stops(q, s) <==> s == Trunc(q.end)
  {
    TruncFrom(s, q.chunk);
    TruncMonotone(MINUTE, q.chunk);
  }

  // Without a cap an import of incomplete chunks gets to the last whole minute
  // of the query or one minute short of it; there is no range at all exactly
  // when the query does not reach past the minute it starts in.
  lemma {:induction false} ReachesTheEnd(q: Query, s: int, i: nat)
    requires Aligned(s) && q.chunk >= MINUTE && q.step == MINUTE && q.allowIncomplete && q.maxRanges <= 0
    requires s <= Trunc(q.end)
    ensures Ranges(q, s, i) == [] <==> s == Trunc(q.end)
    ensures Ranges(q, s, i) != [] ==>
      var last := Ranges(q, s, i)[|Ranges(q, s, i)| - 1].end;
      Trunc(q.end) - MINUTE <= last <= Trunc(q.end)
    decreases q.end - s
  {
    hide Trunc, Aligned, Period, ChunkEnd, Stops;
    ChunkEndFacts(q, s);
    PeriodPositive(q);
    StopsAtTheEnd(q, s);
    var e := ChunkEnd(q, s);
    if !Stops(q, s) && !IsLast(q, s) {
      NextChunk(q, s);
      AlignedStep(e);
      AlignedGap(e, Trunc(q.end));
      ReachesTheEnd(q, e + MINUTE, i + 1);
    }
  }
}
