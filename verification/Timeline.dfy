/** A zone's clock over the next eight days as runs of one UTC offset.

    Instants are UTC nanoseconds. A zone changes its offset on whole seconds
    only, so it is a function from the UTC second to the offset in seconds. */
module Timeline {
  import opened Schedule

  const SAMPLE := 21_600_000_000_000          // six hours
  const SAMPLE_SECONDS := 21_600
  const HORIZON := 691_200_000_000_000        // eight days

  type Zone = int -> int

  function SecondOf(instant: int): int {
    instant / 1_000_000_000
  }

  function OffsetAt(zone: Zone, instant: int): int {
    zone(SecondOf(instant)) * 1_000_000_000
  }

  /** One run: readings from `from` up to, not including, `until`. */
  datatype Segment = Segment(from: int, until: int, offset: int)

  datatype Timeline = Timeline(reading: int, start: int, segments: seq<Segment>)

  /** The instants of a run: from `Opens` up to, not including, `Closes`. */
  function Opens(run: Segment): int { run.from - run.offset }
  function Closes(run: Segment): int { run.until - run.offset }

  /** The runs follow each other in UTC without gap or overlap, from the start
      and its reading on. */
  ghost predicate Contiguous(segments: seq<Segment>) {
    && (forall i :: 0 <= i < |segments| ==> segments[i].from < segments[i].until)
    && (forall i :: 0 < i < |segments| ==> Opens(segments[i]) == Closes(segments[i - 1]))
  }

  ghost predicate WellFormed(t: Timeline) {
    && t.segments != []
    && Contiguous(t.segments)
    && t.segments[0].from == t.reading
    && Opens(t.segments[0]) == t.start
  }

  /** The zone stays on `offset` from `first` to `last`, both included. */
  ghost predicate Steady(zone: Zone, first: int, last: int, offset: int) {
    forall u {:trigger OffsetAt(zone, u)} :: first <= u <= last ==> OffsetAt(zone, u) == offset
  }

  /** The run is on the zone's own offset, as far as `end`. */
  ghost predicate OnZone(run: Segment, zone: Zone, end: int) {
    Steady(zone, Opens(run), if Closes(run) <= end then Closes(run) - 1 else end, run.offset)
  }

  predicate WholeSecond(instant: int) {
    instant % 1_000_000_000 == 0
  }

  /** A new run opens where the zone changes its offset, on a whole second. */
  ghost predicate AtChange(before: Segment, run: Segment, end: int) {
    run.offset != before.offset && Opens(run) <= end && WholeSecond(Opens(run))
  }

  /** What `Timeline.New` promises: runs that follow the zone. */
  ghost predicate FollowsZone(segments: seq<Segment>, zone: Zone, end: int) {
    && (forall i :: 0 <= i < |segments| ==> OnZone(segments[i], zone, end))
    && (forall i :: 0 < i < |segments| ==> AtChange(segments[i - 1], segments[i], end))
  }

  /** At most one offset change within any six hours of the given seconds. */
  ghost predicate Sparse(zone: Zone, first: int, last: int) {
    forall a, b, c :: first <= a <= b <= c <= last && c - a <= SAMPLE_SECONDS
      ==> zone(b) == zone(a) || zone(b) == zone(c)
  }

  /** A clock without offset changes, starting at `reading`. */
  function Fixed(reading: int): (t: Timeline)
    ensures WellFormed(t)
    ensures FollowsZone(t.segments, _ => 0, reading + HORIZON)
  {
    Timeline(reading, reading, [Segment(reading, reading + HORIZON + SECOND, 0)])
  }

  lemma SecondsAreMonotone(a: int, b: int)
    requires a <= b
    ensures SecondOf(a) <= SecondOf(b)
    ensures b - a <= SAMPLE ==> SecondOf(b) - SecondOf(a) <= SAMPLE_SECONDS
  {
  }

  /** The first second after `sample` that is not on `offset` any more: the
      bisection between two samples on different offsets. */
  method Bisect(zone: Zone, sample: int, next: int, offset: int) returns (after: int)
    requires sample <= next && next - sample <= SAMPLE
    requires Sparse(zone, SecondOf(sample), SecondOf(next))
    requires OffsetAt(zone, sample) == offset != OffsetAt(zone, next)
    ensures WholeSecond(after)
    ensures sample < after <= next
    ensures Steady(zone, sample, after - 1, offset)
    ensures Steady(zone, after, next, OffsetAt(zone, next))
  {
    SecondsAreMonotone(sample, next);
    var first, last := SecondOf(sample), SecondOf(next);
    var before, later := first, last + 1;
    while later - before > 1
      invariant first <= before < later <= last + 1
      invariant zone(before) * SECOND == offset
      invariant later <= last ==> zone(later) * SECOND != offset
    {
      var middle := before + (later - before) / 2;
      if zone(middle) * SECOND == offset {
        before := middle;
      } else {
        later := middle;
      }
    }
    after := later * SECOND;
    forall u | sample <= u < after
      ensures OffsetAt(zone, u) == offset
    {
      assert first <= SecondOf(u) <= before;
      assert zone(SecondOf(u)) == zone(first) || zone(SecondOf(u)) == zone(before);
    }
    forall u | after <= u <= next
      ensures OffsetAt(zone, u) == OffsetAt(zone, next)
    {
      assert later <= SecondOf(u) <= last;
      assert zone(later) == zone(first) || zone(later) == zone(last);
      assert zone(SecondOf(u)) == zone(later) || zone(SecondOf(u)) == zone(last);
    }
  }

  lemma SteadyOn(zone: Zone, first: int, middle: int, last: int, offset: int)
    requires Steady(zone, first, middle, offset) && Steady(zone, middle, last, offset)
    ensures Steady(zone, first, last, offset)
  {
  }

  lemma SameSampleSameOffset(zone: Zone, sample: int, next: int)
    requires sample <= next && next - sample <= SAMPLE
    requires Sparse(zone, SecondOf(sample), SecondOf(next))
    requires OffsetAt(zone, sample) == OffsetAt(zone, next)
    ensures Steady(zone, sample, next, OffsetAt(zone, sample))
  {
    SecondsAreMonotone(sample, next);
    forall u | sample <= u <= next
      ensures OffsetAt(zone, u) == OffsetAt(zone, sample)
    {
      SecondsAreMonotone(sample, u);
      SecondsAreMonotone(u, next);
      assert zone(SecondOf(u)) == zone(SecondOf(sample)) || zone(SecondOf(u)) == zone(SecondOf(next));
    }
  }

  /** The runs closed so far, when the current one began at `runStart` on
      `offset`. */
  ghost predicate ClosedRuns(segments: seq<Segment>, zone: Zone, start: int, end: int, runStart: int, offset: int) {
    && Contiguous(segments) && FollowsZone(segments, zone, end)
    && (segments == [] ==> runStart == start && OffsetAt(zone, start) == offset)
    && (segments != [] ==>
          && Opens(segments[0]) == start && segments[0].offset == OffsetAt(zone, start)
          && Closes(segments[|segments| - 1]) == runStart
          && segments[|segments| - 1].offset != offset
          && runStart <= end && WholeSecond(runStart))
  }

  lemma CloseRun(segments: seq<Segment>, zone: Zone, start: int, end: int, runStart: int, offset: int, closes: int)
    requires ClosedRuns(segments, zone, start, end, runStart, offset)
    requires runStart < closes && runStart <= end
    requires Steady(zone, runStart, if closes <= end then closes - 1 else end, offset)
    ensures var all := segments + [Segment(runStart + offset, closes + offset, offset)];
            && Contiguous(all) && FollowsZone(all, zone, end)
            && Opens(all[0]) == start && all[0].offset == OffsetAt(zone, start)
  {
    var run := Segment(runStart + offset, closes + offset, offset);
    assert OnZone(run, zone, end);
    if segments != [] {
      assert AtChange(segments[|segments| - 1], run, end);
    }
  }

  lemma NextRun(segments: seq<Segment>, zone: Zone, start: int, end: int, runStart: int, offset: int, after: int, next: int)
    requires ClosedRuns(segments, zone, start, end, runStart, offset)
    requires runStart < after <= end && WholeSecond(after) && next != offset
    requires Steady(zone, runStart, after - 1, offset)
    ensures ClosedRuns(segments + [Segment(runStart + offset, after + offset, offset)], zone, start, end, after, next)
  {
    CloseRun(segments, zone, start, end, runStart, offset, after);
  }

  lemma SteadyAtStart(zone: Zone, start: int, end: int)
    requires start <= end
    ensures Steady(zone, start, start, OffsetAt(zone, start))
    ensures ClosedRuns([], zone, start, end, start, OffsetAt(zone, start))
  {
  }

  /** `zone`'s clock from `start`: sampled every six hours, with each offset
      change bisected to the second. The runs cover every instant from the
      start to the horizon exactly once, each on the zone's own offset, and
      a new run starts exactly where the zone changes. */
  method New(reading: int, start: int, zone: Zone) returns (t: Timeline)
    requires reading == start + OffsetAt(zone, start)
    requires Sparse(zone, SecondOf(start), SecondOf(start + HORIZON))
    ensures WellFormed(t) && t.reading == reading && t.start == start
    ensures Closes(t.segments[|t.segments| - 1]) == start + HORIZON + SECOND
    ensures FollowsZone(t.segments, zone, start + HORIZON)
  {
    hide Sparse, Steady, ClosedRuns, Contiguous, FollowsZone, WholeSecond;
    var end := start + HORIZON;
    var segments := [];
    var runStart := start;
    var offset := OffsetAt(zone, start);
    var sample := start;
    SteadyAtStart(zone, start, end);
    while sample < end
      invariant start <= runStart <= sample <= end
      invariant ClosedRuns(segments, zone, start, end, runStart, offset)
      invariant Steady(zone, runStart, sample, offset)
      invariant OffsetAt(zone, sample) == offset
      decreases end - sample
    {
      var next := if sample + SAMPLE < end then sample + SAMPLE else end;
      SparseWithin(zone, start, sample, next, end);
      var nextOffset := OffsetAt(zone, next);
      if nextOffset != offset {
        var after := Bisect(zone, sample, next, offset);
        SteadyOn(zone, runStart, sample, after - 1, offset);
        NextRun(segments, zone, start, end, runStart, offset, after, nextOffset);
        segments := segments + [Segment(runStart + offset, after + offset, offset)];
        runStart := after;
        offset := nextOffset;
      } else {
        SameSampleSameOffset(zone, sample, next);
        SteadyOn(zone, runStart, sample, next, offset);
      }
      sample := next;
    }
    CloseRun(segments, zone, start, end, runStart, offset, end + SECOND);
    segments := segments + [Segment(runStart + offset, end + offset + SECOND, offset)];
    t := Timeline(reading, start, segments);
  }

  lemma SparseWithin(zone: Zone, start: int, sample: int, next: int, end: int)
    requires start <= sample <= next <= end
    requires Sparse(zone, SecondOf(start), SecondOf(end))
    ensures Sparse(zone, SecondOf(sample), SecondOf(next))
  {
    SecondsAreMonotone(start, sample);
    SecondsAreMonotone(next, end);
  }

  // ---- Reading the clock off a timeline ----

  ghost predicate InRun(run: Segment, u: int) {
    Opens(run) <= u < Closes(run)
  }

  /** The clock of `t` reads `local` at the instant `u`. */
  ghost predicate Shows(t: Timeline, u: int, local: int) {
    exists i :: 0 <= i < |t.segments| && InRun(t.segments[i], u) && local == u + t.segments[i].offset
  }

  lemma {:induction false} RunsAscend(segments: seq<Segment>, i: int, j: int)
    requires Contiguous(segments) && 0 <= i < j < |segments|
    ensures Closes(segments[i]) <= Opens(segments[j])
    decreases j
  {
    if i < j - 1 {
      RunsAscend(segments, i, j - 1);
    }
  }

  /** Every instant from the start to the end of the last run is in exactly
      one run. */
  lemma {:induction false} CoveredOnce(t: Timeline, u: int) returns (i: nat)
    requires WellFormed(t)
    requires t.start <= u < Closes(t.segments[|t.segments| - 1])
    ensures i < |t.segments| && InRun(t.segments[i], u)
    ensures forall j :: 0 <= j < |t.segments| && InRun(t.segments[j], u) ==> j == i
  {
    i := |t.segments| - 1;
    while Opens(t.segments[i]) > u
      invariant 0 <= i < |t.segments|
      invariant u < Closes(t.segments[i])
    {
      i := i - 1;
    }
    forall j | 0 <= j < |t.segments| && InRun(t.segments[j], u)
      ensures j == i
    {
      if j < i { RunsAscend(t.segments, j, i); }
      if i < j { RunsAscend(t.segments, i, j); }
    }
  }

  /** Up to the horizon the timeline's clock is the zone's. */
  lemma ShowsTheZonesClock(t: Timeline, zone: Zone, u: int, local: int)
    requires WellFormed(t) && FollowsZone(t.segments, zone, t.start + HORIZON)
    requires Closes(t.segments[|t.segments| - 1]) == t.start + HORIZON + SECOND
    requires t.start <= u <= t.start + HORIZON
    ensures Shows(t, u, local) <==> local == u + OffsetAt(zone, u)
  {
    var i := CoveredOnce(t, u);
    assert OffsetAt(zone, u) == t.segments[i].offset;
  }
}
