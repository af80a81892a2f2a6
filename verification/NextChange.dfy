/** The search for the next schedule change: it asks only at edge minutes and
    at clock jumps, and finds what a walk through every instant would find. */
module NextChange {
  import opened Common
  import opened Schedule
  import opened Timeline

  /** The reading the clock will show, and the real time until then. */
  datatype Change = Change(local: int, after: int)

  // ---- What a walk through every instant finds ----

  /** No reading the clock shows after the start and before `until` is decided
      otherwise than the starting one. */
  ghost predicate Unchanged<T>(t: Timeline, decide: int -> T, until: int) {
    forall u, local :: t.start < u < until && Shows(t, u, local) ==> decide(local) == decide(t.reading)
  }

  ghost predicate IsFirstChange<T>(t: Timeline, decide: int -> T, change: Change) {
    && change.after > 0
    && Shows(t, t.start + change.after, change.local)
    && decide(change.local) != decide(t.reading)
    && Unchanged(t, decide, t.start + change.after)
  }

  function End(t: Timeline): int
    requires t.segments != []
  {
    Closes(t.segments[|t.segments| - 1])
  }

  // ---- How many questions a search can take ----

  function Days(run: Segment): int {
    DayOf(run.until) - DayOf(run.from) + 1
  }

  /** One question where each run opens, and one per edge minute and day. */
  function Questions(runs: seq<Segment>, minutes: nat): int {
    if runs == [] then 0
    else Questions(runs[..|runs| - 1], minutes) + 1 + minutes * Days(runs[|runs| - 1])
  }

  /** A budget no search over `t` can use up: each question is charged one
      check per rule, and a rule has at most two edges beside midnight. */
  predicate Enough(rules: seq<Rule>, t: Timeline, budget: int) {
    |rules| * Questions(t.segments, 2 * |rules| + 1) <= budget
  }

  lemma {:induction false} QuestionsGrow(runs: seq<Segment>, i: nat, minutes: nat)
    requires i < |runs|
    requires forall run :: run in runs ==> run.from < run.until
    ensures Questions(runs[..i], minutes) + 1 + minutes * Days(runs[i]) <= Questions(runs, minutes)
    decreases |runs|
  {
    var last := |runs| - 1;
    assert Days(runs[last]) >= 0;
    if i == last {
      assert runs[..i] == runs[..|runs| - 1];
    } else {
      QuestionsGrow(runs[..last], i, minutes);
      assert runs[..last][..i] == runs[..i];
      assert minutes * Days(runs[last]) >= 0;
    }
  }

  // ---- One run ----

  datatype Outcome = Found(local: int) | Exhausted | OutOfBudget | DayDone

  ghost predicate NoEdgeBetween(rules: seq<Rule>, a: int, b: int) {
    forall day, m :: IsEdgeMinute(rules, m) ==> !(a < Edge(day, m) < b)
  }

  ghost predicate SameUpTo<T>(decide: int -> T, current: T, first: int, until: int) {
    forall local :: first <= local < until ==> decide(local) == current
  }

  /** The edge a walk over the days and their edge minutes comes to at `k`. */
  function Position(minutes: seq<int>, day: int, k: nat): int
    requires k <= |minutes|
  {
    if k < |minutes| then Edge(day, minutes[k]) else Edge(day + 1, 0)
  }

  ghost predicate AreEdges(rules: seq<Rule>, minutes: seq<int>) {
    && Ascending(minutes)
    && forall m :: m in minutes <==> IsEdgeMinute(rules, m)
  }

  lemma MidnightFirst(rules: seq<Rule>, minutes: seq<int>)
    requires AreEdges(rules, minutes)
    ensures minutes != [] && minutes[0] == 0
  {
    assert IsEdgeMinute(rules, 0);
    assert 0 in minutes;
    assert IsEdgeMinute(rules, minutes[0]);
  }

  lemma EdgesInOrder(d: int, m: int, e: int, n: int)
    requires 0 <= m < 1440 && 0 <= n < 1440
    ensures Edge(d, m) < Edge(e, n) <==> d < e || (d == e && m < n)
    ensures Edge(d, m) < Edge(d + 1, 0)
  {
  }

  lemma NextPosition(rules: seq<Rule>, minutes: seq<int>, day: int, k: nat)
    requires AreEdges(rules, minutes) && k < |minutes|
    ensures NoEdgeBetween(rules, Position(minutes, day, k), Position(minutes, day, k + 1))
    ensures Position(minutes, day, k) < Position(minutes, day, k + 1)
  {
    assert minutes[k] in minutes && IsEdgeMinute(rules, minutes[k]);
    EdgesInOrder(day, minutes[k], day, minutes[k]);
    if k + 1 < |minutes| {
      assert minutes[k + 1] in minutes && IsEdgeMinute(rules, minutes[k + 1]);
      EdgesInOrder(day, minutes[k], day, minutes[k + 1]);
    }
    forall d, m | IsEdgeMinute(rules, m)
      ensures !(Position(minutes, day, k) < Edge(d, m) < Position(minutes, day, k + 1))
    {
      assert m in minutes;
      EdgesInOrder(day, minutes[k], d, m);
      if k + 1 < |minutes| {
        EdgesInOrder(d, m, day, minutes[k + 1]);
      } else {
        EdgesInOrder(d, m, day + 1, 0);
      }
    }
  }

  lemma NarrowerWindow(rules: seq<Rule>, a: int, b: int, c: int, d: int)
    requires NoEdgeBetween(rules, a, b) && a <= c && d <= b
    ensures NoEdgeBetween(rules, c, d)
  {
  }

  lemma SameBeforeNextEdge<T(!new)>(
    rules: seq<Rule>, month: Calendar, decide: int -> T, current: T, first: int, anchor: int, until: int
  )
    requires Follows(rules, month, decide)
    requires first <= anchor && SameUpTo(decide, current, first, anchor + 1)
    requires NoEdgeBetween(rules, anchor, until)
    ensures SameUpTo(decide, current, first, until)
  {
    forall local | first <= local < until
      ensures decide(local) == current
    {
      if anchor < local {
        MatchesChangeOnlyAtEdges(rules, month, anchor, local);
      }
    }
  }

  lemma OneMoreDay(m: nat, days: int)
    ensures m * (days + 1) == m * days + m
  {
  }

  lemma MoreDays(m: nat, a: int, b: int)
    requires a <= b
    ensures m * a <= m * b
  {
  }

  /** What the search knows at `anchor`, the last reading it asked about. */
  ghost predicate Anchored<T>(rules: seq<Rule>, run: Segment, decide: int -> T, current: T, anchor: int, next: int) {
    && run.from <= anchor < run.until
    && SameUpTo(decide, current, run.from, anchor + 1)
    && NoEdgeBetween(rules, anchor, next)
  }

  /** The edges of one day, from the one after the run's opening to the last
      before its end. */
  method SearchDay<T(!new, ==)>(
    rules: seq<Rule>, month: Calendar, minutes: seq<int>, run: Segment, day: int, budget: nat,
    decide: int -> T, current: T, ghost from: int
  ) returns (outcome: Outcome, left: nat, ghost asked: nat, ghost anchor: int)
    requires AreEdges(rules, minutes) && Follows(rules, month, decide)
    requires Anchored(rules, run, decide, current, from, Edge(day, 0))
    ensures left + |rules| * asked == budget
    ensures asked <= |minutes|
    ensures asked > 0 || outcome.OutOfBudget? ==> Edge(day, 0) < run.until
    ensures match outcome
            case Found(local) =>
              && run.from < local < run.until && decide(local) != current
              && SameUpTo(decide, current, run.from, local)
            case Exhausted => SameUpTo(decide, current, run.from, run.until)
            case OutOfBudget => left < |rules| && asked < |minutes|
            case DayDone =>
              Edge(day, 0) < run.until && Anchored(rules, run, decide, current, anchor, Edge(day + 1, 0))
  {
    hide Follows, NoEdgeBetween;
    MidnightFirst(rules, minutes);
    left, asked, anchor := budget, 0, from;
    for k := 0 to |minutes|
      invariant Anchored(rules, run, decide, current, anchor, Position(minutes, day, k))
      invariant k > 0 ==> Edge(day, 0) < run.until
      invariant left + |rules| * asked == budget
      invariant asked <= k
    {
      var candidate := Edge(day, minutes[k]);
      NextPosition(rules, minutes, day, k);
      if candidate > run.from {
        if candidate >= run.until {
          NarrowerWindow(rules, anchor, candidate, anchor, run.until);
          SameBeforeNextEdge(rules, month, decide, current, run.from, anchor, run.until);
          return Exhausted, left, asked, anchor;
        }
        SameBeforeNextEdge(rules, month, decide, current, run.from, anchor, candidate);
        if left < |rules| {
          return OutOfBudget, left, asked, anchor;
        }
        left, asked := left - |rules|, asked + 1;
        if decide(candidate) != current {
          return Found(candidate), left, asked, anchor;
        }
        anchor := candidate;
      } else {
        NarrowerWindow(rules, candidate, Position(minutes, day, k + 1), anchor, Position(minutes, day, k + 1));
      }
    }
    outcome := DayDone;
  }

  /** The first edge in the run after its opening that is decided otherwise,
      while the budget lasts. */
  method SearchRun<T(!new, ==)>(
    rules: seq<Rule>, month: Calendar, minutes: seq<int>, run: Segment, budget: nat, decide: int -> T, current: T
  ) returns (outcome: Outcome, left: nat, ghost asked: nat)
    requires AreEdges(rules, minutes) && |minutes| <= 2 * |rules| + 1
    requires Follows(rules, month, decide)
    requires run.from < run.until && decide(run.from) == current
    ensures left + |rules| * asked == budget
    ensures asked <= (2 * |rules| + 1) * Days(run)
    ensures !outcome.DayDone?
    ensures match outcome
            case Found(local) =>
              && run.from < local < run.until && decide(local) != current
              && SameUpTo(decide, current, run.from, local)
            case Exhausted => SameUpTo(decide, current, run.from, run.until)
            case OutOfBudget => left < |rules| && asked < (2 * |rules| + 1) * Days(run)
            case DayDone => false
  {
    hide Follows, AreEdges;
    ghost var most := 2 * |rules| + 1;
    var opening := DayOf(run.from);
    Placed(run.from);
    Placed(run.until);
    var day := opening;
    left, asked := budget, 0;
    ghost var anchor := run.from;
    while true
      invariant opening <= day <= DayOf(run.until) + 1
      invariant Anchored(rules, run, decide, current, anchor, Edge(day, 0))
      invariant left + |rules| * asked == budget
      invariant asked <= most * (day - opening)
      decreases DayOf(run.until) + 1 - day
    {
      ghost var askedToday;
      ghost var before := left;
      outcome, left, askedToday, anchor := SearchDay(rules, month, minutes, run, day, left, decide, current, anchor);
      Charged(|rules|, asked, askedToday);
      asked := asked + askedToday;
      OneMoreDay(most, day - opening);
      if outcome.DayDone? {
        day := day + 1;
      } else {
        if Edge(day, 0) < run.until {
          MoreDays(most, day - opening + 1, Days(run));
        } else {
          MoreDays(most, day - opening, Days(run));
        }
        return;
      }
    }
  }

  lemma Charged(cost: nat, a: nat, b: nat)
    ensures cost * (a + b) == cost * a + cost * b
  {
  }

  // ---- All runs ----

  /** The first `i` runs show nothing that is decided otherwise. */
  ghost predicate RunsSame<T>(t: Timeline, decide: int -> T, i: nat) {
    forall j :: 0 <= j < i && j < |t.segments| ==>
      SameUpTo(decide, decide(t.reading), t.segments[j].from, t.segments[j].until)
  }

  lemma UnchangedByRuns<T>(t: Timeline, decide: int -> T, i: nat, local: int)
    requires WellFormed(t) && i < |t.segments|
    requires RunsSame(t, decide, i)
    requires t.segments[i].from <= local <= t.segments[i].until
    requires SameUpTo(decide, decide(t.reading), t.segments[i].from, local)
    ensures Unchanged(t, decide, local - t.segments[i].offset)
  {
    forall u, l | t.start < u < local - t.segments[i].offset && Shows(t, u, l)
      ensures decide(l) == decide(t.reading)
    {
      var j :| 0 <= j < |t.segments| && InRun(t.segments[j], u) && l == u + t.segments[j].offset;
      if i < j {
        RunsAscend(t.segments, i, j);
      }
    }
  }

  /** A reading in run `i` that is decided otherwise, after only readings that
      are not, is the first change. */
  lemma FirstInRun<T>(t: Timeline, decide: int -> T, i: nat, local: int)
    requires WellFormed(t) && i < |t.segments|
    requires RunsSame(t, decide, i)
    requires t.segments[i].from <= local < t.segments[i].until
    requires SameUpTo(decide, decide(t.reading), t.segments[i].from, local)
    requires decide(local) != decide(t.reading)
    ensures IsFirstChange(t, decide, Change(local, local - t.segments[i].offset - t.start))
  {
    UnchangedByRuns(t, decide, i, local);
    var u := local - t.segments[i].offset;
    assert InRun(t.segments[i], u);
    if i > 0 {
      RunsAscend(t.segments, 0, i);
    }
  }

  lemma NoEnabledRule<T(!new)>(rules: seq<Rule>, month: Calendar, t: Timeline, decide: int -> T)
    requires Follows(rules, month, decide)
    requires forall rule :: rule in rules ==> !rule.enabled
    requires WellFormed(t)
    ensures Unchanged(t, decide, End(t))
  {
    forall u, local | t.start < u < End(t) && Shows(t, u, local)
      ensures decide(local) == decide(t.reading)
    {
      assert SameMatches(rules, month, local, t.reading);
    }
  }

  /** What the charges say once a question could not be paid. */
  lemma CannotRunOut(rules: seq<Rule>, t: Timeline, budget: nat, left: nat, asked: nat)
    requires left + |rules| * asked == budget && left < |rules|
    requires asked < Questions(t.segments, 2 * |rules| + 1)
    ensures !Enough(rules, t, budget)
  {
    MoreDays(|rules|, asked + 1, Questions(t.segments, 2 * |rules| + 1));
    OneMoreDay(|rules|, asked);
  }

  lemma RunFacts<T>(t: Timeline, decide: int -> T, i: nat, most: nat)
    requires WellFormed(t) && i < |t.segments|
    ensures t.segments[i].from < t.segments[i].until
    ensures i == 0 ==> t.segments[i].from == t.reading
    ensures Questions(t.segments[..i], most) + 1 + most * Days(t.segments[i]) == Questions(t.segments[..i + 1], most)
    ensures Questions(t.segments[..i + 1], most) <= Questions(t.segments, most)
    ensures most * Days(t.segments[i]) >= 0
  {
    var run := t.segments[i];
    assert t.segments[..i + 1][..i] == t.segments[..i];
    QuestionsGrow(t.segments, i, most);
    MoreDays(most, 0, Days(run));
  }

  lemma OneMoreRun<T>(t: Timeline, decide: int -> T, i: nat)
    requires RunsSame(t, decide, i) && i < |t.segments|
    requires SameUpTo(decide, decide(t.reading), t.segments[i].from, t.segments[i].until)
    ensures RunsSame(t, decide, i + 1)
  {
  }

  lemma NoChangeInAnyRun<T>(t: Timeline, decide: int -> T)
    requires WellFormed(t) && RunsSame(t, decide, |t.segments|)
    ensures Unchanged(t, decide, End(t))
  {
    var last := |t.segments| - 1;
    UnchangedByRuns(t, decide, last, t.segments[last].until);
  }

  /** The search. A change it reports is the first one, whatever the budget;
      with enough budget it reports none only when there is none. */
  method NextChange<T(!new, ==)>(rules: seq<Rule>, month: Calendar, t: Timeline, budget: nat, decide: int -> T)
    returns (change: Option<Change>, left: nat)
    requires WellFormed(t)
    requires Follows(rules, month, decide)
    ensures left <= budget
    ensures change.Some? ==> IsFirstChange(t, decide, change.value)
    ensures change.None? && Enough(rules, t, budget) ==> Unchanged(t, decide, End(t))
  {
    hide Follows, IsFirstChange, Enough, Unchanged, Contiguous, SameUpTo, RunsSame, Questions, Days, IsEdgeMinute;
    left := budget;
    if forall i :: 0 <= i < |rules| ==> !rules[i].enabled {
      NoEnabledRule(rules, month, t, decide);
      return None, left;
    }
    var minutes := EdgeMinutes(rules);
    ghost var most := 2 * |rules| + 1;
    ghost var asked: nat := 0;
    RunFacts(t, decide, 0, most);
    NothingAsked(t, decide, most);
    if left < |rules| {
      CannotRunOut(rules, t, budget, left, asked);
      return None, left;
    }
    left, asked := left - |rules|, 1;
    var current := decide(t.reading);
    for i := 0 to |t.segments|
      invariant left + |rules| * asked == budget
      invariant asked <= Questions(t.segments[..i], most) + if i == 0 then 1 else 0
      invariant RunsSame(t, decide, i)
    {
      var run := t.segments[i];
      RunFacts(t, decide, i, most);
      if i > 0 {
        if left < |rules| {
          CannotRunOut(rules, t, budget, left, asked);
          return None, left;
        }
        Charged(|rules|, asked, 1);
        left, asked := left - |rules|, asked + 1;
        if decide(run.from) != current {
          NothingBefore(decide, current, run.from);
          FirstInRun(t, decide, i, run.from);
          return Some(Change(run.from, run.from - run.offset - t.start)), left;
        }
      }
      var outcome;
      ghost var askedHere;
      outcome, left, askedHere := SearchRun(rules, month, minutes, run, left, decide, current);
      Charged(|rules|, asked, askedHere);
      asked := asked + askedHere;
      match outcome {
        case Found(local) =>
          FirstInRun(t, decide, i, local);
          return Some(Change(local, local - run.offset - t.start)), left;
        case OutOfBudget =>
          CannotRunOut(rules, t, budget, left, asked);
          return None, left;
        case Exhausted =>
          OneMoreRun(t, decide, i);
      }
    }
    NoChangeInAnyRun(t, decide);
    change := None;
  }

  lemma NothingBefore<T>(decide: int -> T, current: T, first: int)
    ensures SameUpTo(decide, current, first, first)
  {
  }

  lemma NothingAsked<T>(t: Timeline, decide: int -> T, most: nat)
    requires WellFormed(t)
    ensures Questions(t.segments[..0], most) == 0
    ensures RunsSame(t, decide, 0)
  {
  }

  // ---- What the answer means for the zone ----

  /** Whatever the budget, an answer other than none is the same one. */
  lemma FirstChangeIsUnique<T>(t: Timeline, decide: int -> T, a: Change, b: Change)
    requires WellFormed(t)
    requires IsFirstChange(t, decide, a) && IsFirstChange(t, decide, b)
    ensures a == b
  {
    assert a.after == b.after;
    var i :| 0 <= i < |t.segments| && InRun(t.segments[i], t.start + a.after) && a.local == t.start + a.after + t.segments[i].offset;
    var j :| 0 <= j < |t.segments| && InRun(t.segments[j], t.start + b.after) && b.local == t.start + b.after + t.segments[j].offset;
    if i < j { RunsAscend(t.segments, i, j); }
    if j < i { RunsAscend(t.segments, j, i); }
  }

  function ZoneReading(zone: Zone, instant: int): int {
    instant + OffsetAt(zone, instant)
  }

  /** The zone's clock shows something decided otherwise at `u`. */
  ghost predicate ChangedAt<T>(zone: Zone, start: int, decide: int -> T, u: int) {
    decide(ZoneReading(zone, u)) != decide(ZoneReading(zone, start))
  }

  ghost predicate FirstZoneChange<T>(zone: Zone, start: int, decide: int -> T, change: Change) {
    && 0 < change.after <= HORIZON
    && change.local == ZoneReading(zone, start + change.after)
    && ChangedAt(zone, start, decide, start + change.after)
    && forall u :: start < u < start + change.after ==> !ChangedAt(zone, start, decide, u)
  }

  /** A timeline of `zone`'s, as `Timeline.New` makes it. */
  ghost predicate IsTimelineOf(t: Timeline, zone: Zone) {
    && WellFormed(t)
    && t.reading == ZoneReading(zone, t.start)
    && FollowsZone(t.segments, zone, t.start + HORIZON)
    && End(t) == t.start + HORIZON + SECOND
  }

  /** The search's answer, against a walk along the zone's own clock: a change
      within the horizon is the zone's first, and there is one exactly when
      the zone's clock shows one within the horizon. */
  lemma AnswerIsTheZones<T(!new)>(t: Timeline, zone: Zone, decide: int -> T, answer: Option<Change>)
    requires IsTimelineOf(t, zone)
    requires answer.Some? ==> IsFirstChange(t, decide, answer.value)
    requires answer.None? ==> Unchanged(t, decide, End(t))
    ensures answer.Some? && answer.value.after <= HORIZON ==> FirstZoneChange(zone, t.start, decide, answer.value)
    ensures (exists u :: t.start < u <= t.start + HORIZON && ChangedAt(zone, t.start, decide, u))
            <==> answer.Some? && answer.value.after <= HORIZON
  {
    forall u | t.start < u <= t.start + HORIZON
      ensures Shows(t, u, ZoneReading(zone, u))
    {
      ShowsTheZonesClock(t, zone, u, ZoneReading(zone, u));
    }
    if answer.Some? && answer.value.after <= HORIZON {
      ShowsTheZonesClock(t, zone, t.start + answer.value.after, answer.value.local);
    }
  }

  lemma EdgesFallOnSeconds(day: int, m: int)
    ensures WholeSecond(Edge(day, m))
  {
    assert Edge(day, m) == (day * 86_400 + m * 60) * 1_000_000_000;
  }

  /** Past the horizon the clock is still the last run's, on the offset the
      zone has at the horizon. */
  lemma PastHorizon(t: Timeline, zone: Zone, u: int, local: int)
    requires IsTimelineOf(t, zone)
    requires t.start + HORIZON < u && Shows(t, u, local)
    ensures local == u + OffsetAt(zone, t.start + HORIZON)
    ensures u < t.start + HORIZON + SECOND
    ensures Shows(t, t.start + HORIZON, ZoneReading(zone, t.start + HORIZON))
  {
    var end := t.start + HORIZON;
    var last := |t.segments| - 1;
    var i :| 0 <= i < |t.segments| && InRun(t.segments[i], u) && local == u + t.segments[i].offset;
    assert Opens(t.segments[last]) <= end by {
      if last > 0 {
        assert AtChange(t.segments[last - 1], t.segments[last], end);
      }
    }
    if i < last {
      RunsAscend(t.segments, i, last);
    }
    assert OnZone(t.segments[last], zone, end);
    assert InRun(t.segments[last], end);
  }

  /** From a start on a whole second the search never answers past its eight
      days. */
  lemma WholeSecondStartStaysWithinHorizon<T(!new)>(
    rules: seq<Rule>, month: Calendar, t: Timeline, zone: Zone, decide: int -> T, change: Change
  )
    requires IsTimelineOf(t, zone) && Follows(rules, month, decide)
    requires IsFirstChange(t, decide, change)
    requires WholeSecond(t.start)
    ensures change.after <= HORIZON
  {
    hide IsTimelineOf, Follows, FollowsZone;
    var end := t.start + HORIZON;
    if end < t.start + change.after {
      PastHorizon(t, zone, t.start + change.after, change.local);
      var reading := ZoneReading(zone, end);
      forall day, m | IsEdgeMinute(rules, m)
        ensures !(reading < Edge(day, m) <= change.local)
      {
        EdgesFallOnSeconds(day, m);
        NoSecondBetween(end, OffsetAt(zone, end), Edge(day, m), change.local, zone);
      }
      MatchesChangeOnlyAtEdges(rules, month, reading, change.local);
      DecidedAlike(rules, month, decide, reading, change.local);
    }
  }

  lemma DecidedAlike<T(!new)>(rules: seq<Rule>, month: Calendar, decide: int -> T, a: int, b: int)
    requires Follows(rules, month, decide) && SameMatches(rules, month, a, b)
    ensures decide(a) == decide(b)
  {
  }

  lemma NoSecondBetween(end: int, offset: int, edge: int, local: int, zone: Zone)
    requires WholeSecond(end) && offset == OffsetAt(zone, end) && WholeSecond(edge)
    requires local < end + offset + SECOND
    ensures !(end + offset < edge <= local)
  {
    var seconds := zone(SecondOf(end));
    assert offset == seconds * 1_000_000_000;
    assert end == (end / 1_000_000_000) * 1_000_000_000;
    assert edge == (edge / 1_000_000_000) * 1_000_000_000;
  }

  // ---- From a start between two seconds ----

  /** From `start`, some zone and rules have an answer past the eight days,
      whatever the calendar. */
  ghost predicate MayOvershoot(start: int, month: Calendar) {
    exists rules, t, zone, decide: int -> bool, change :: Overshoots(start, rules, month, t, zone, decide, change)
  }

  ghost predicate Overshoots(
    start: int, rules: seq<Rule>, month: Calendar, t: Timeline, zone: Zone, decide: int -> bool, change: Change
  )
  {
    && t.start == start && IsTimelineOf(t, zone) && Sparse(zone, SecondOf(start), SecondOf(start + HORIZON))
    && Follows(rules, month, decide)
    && IsFirstChange(t, decide, change) && change.after > HORIZON
  }

  /** The second after the one the horizon falls in. */
  function SecondPast(start: int): int {
    SecondOf(start + HORIZON) + 1
  }

  const WEEK := 604_800_000_000_000
  const HOUR := 3_600_000_000_000
  const HALF := 1_800_000_000_000

  /** The day whose midnight is nearest to a second, and the offset that puts it
      there: within half a day of UTC. */
  function NearestDay(second: int): int { (second + 43_200) / 86_400 }
  function ToMidnight(second: int): int { NearestDay(second) * 86_400 - second }

  /** A zone that springs an hour forward at `at`, to `offset`. */
  function Springs(at: int, offset: int): Zone {
    second => if second < at then offset - 3_600 else offset
  }

  /** Its clock, where the change is half an hour past midnight a week before
      `past`, and `past` is a midnight. */
  function SpringTimeline(start: int, past: int): Timeline {
    var offset := ToMidnight(past) * 1_000_000_000;
    var before, at := offset - HOUR, past * 1_000_000_000 - WEEK + HALF;
    Timeline(start + before, start, [
      Segment(start + before, at + before, before), Segment(at + offset, start + HORIZON + SECOND + offset, offset)])
  }

  /** The minute after midnight, on one day of the week. */
  function MidnightRule(weekday: int): Rule {
    Rule("r", "p", "", [], [weekday], Some(0), Some(1), true)
  }

  lemma PastHorizonIs(start: int)
    requires !WholeSecond(start)
    ensures start + HORIZON < SecondPast(start) * 1_000_000_000 < start + HORIZON + SECOND
  {
  }

  lemma SpringIsATimeline(start: int)
    requires !WholeSecond(start)
    ensures var past := SecondPast(start); var zone := Springs(past - 603_000, ToMidnight(past));
      IsTimelineOf(SpringTimeline(start, past), zone) && Sparse(zone, SecondOf(start), SecondOf(start + HORIZON))
  {
    hide NearestDay;
    PastHorizonIs(start);
    var past := SecondPast(start);
    var t, zone, end := SpringTimeline(start, past), Springs(past - 603_000, ToMidnight(past)), start + HORIZON;
    var at := past * 1_000_000_000 - WEEK + HALF;
    assert at == (past - 603_000) * 1_000_000_000;
    forall u
      ensures SecondOf(u) < past - 603_000 <==> u < at
    {
    }
    assert Steady(zone, start, at - 1, t.segments[0].offset);
    assert Steady(zone, at, end, t.segments[1].offset);
    assert OnZone(t.segments[0], zone, end) && OnZone(t.segments[1], zone, end);
    assert AtChange(t.segments[0], t.segments[1], end);
    assert Contiguous(t.segments);
  }

  lemma MidnightRuleMatches(day: int, month: Calendar, at: int)
    requires (day - 9) * DAY < at < day * DAY
    requires at < (day - 7) * DAY || at >= (day - 7) * DAY + HALF
    ensures !Matches(MidnightRule(Weekday(day)), month, at)
  {
    Placed(at);
    if DayOf(at) == day - 7 {
      assert MinuteOf(at) >= 30;
    } else {
      assert day - 9 <= DayOf(at) < day;
    }
  }

  lemma MidnightMatches(day: int, month: Calendar)
    ensures Matches(MidnightRule(Weekday(day)), month, day * DAY)
  {
    assert DayOf(day * DAY) == day && MinuteOf(day * DAY) == 0;
  }

  lemma OneRuleFollows(rule: Rule, month: Calendar)
    ensures Follows([rule], month, at => Matches(rule, month, at))
  {
    forall a, b | SameMatches([rule], month, a, b)
      ensures Matches(rule, month, a) == Matches(rule, month, b)
    {
      assert rule in [rule];
    }
  }

  /** What the spring clock shows before that midnight skips the one a week
      earlier. */
  lemma SpringShows(start: int, u: int, local: int)
    requires !WholeSecond(start)
    requires var t := SpringTimeline(start, SecondPast(start)); Shows(t, u, local) && u < SecondPast(start) * 1_000_000_000
    ensures var day := NearestDay(SecondPast(start));
      && (day - 9) * DAY < local < day * DAY
      && (local < (day - 7) * DAY || local >= (day - 7) * DAY + HALF)
  {
    hide NearestDay;
    PastHorizonIs(start);
  }

  /** The last run is counted to the end of the second the horizon falls in.
      Where that is a midnight, a rule begins with it, and the clock skipped the
      same minute a week before, the answer is past eight days. */
  lemma FractionalStartOvershoots(start: int, month: Calendar)
    requires !WholeSecond(start)
    ensures MayOvershoot(start, month)
  {
    hide Matches, IsTimelineOf, Follows, NearestDay, Sparse, MidnightRule;
    PastHorizonIs(start);
    var past := SecondPast(start);
    var u, day, t, zone :=
      past * 1_000_000_000, NearestDay(past), SpringTimeline(start, past), Springs(past - 603_000, ToMidnight(past));
    var rule := MidnightRule(Weekday(day));
    var decide := at => Matches(rule, month, at);
    var change := Change(day * DAY, u - start);
    SpringIsATimeline(start);
    OneRuleFollows(rule, month);
    forall v, local | v < u && Shows(t, v, local)
      ensures !decide(local)
    {
      SpringShows(start, v, local);
      MidnightRuleMatches(day, month, local);
    }
    assert InRun(t.segments[1], u);
    assert Shows(t, u, day * DAY);
    MidnightMatches(day, month);
    assert Shows(t, start, t.reading) by {
      assert InRun(t.segments[0], start);
    }
    assert IsFirstChange(t, decide, change);
    assert Overshoots(start, [rule], month, t, zone, decide, change);
  }

  /** Whatever the calendar, no answer is past the eight days exactly from a
      start on a whole second. */
  lemma AnswersStayWithinExactly(start: int, month: Calendar)
    ensures !MayOvershoot(start, month) <==> WholeSecond(start)
  {
    hide IsTimelineOf, Follows, IsFirstChange, Sparse;
    if WholeSecond(start) {
      forall rules, t, zone, decide: int -> bool, change
        ensures !Overshoots(start, rules, month, t, zone, decide, change)
      {
        if t.start == start && IsTimelineOf(t, zone) && Follows(rules, month, decide) && IsFirstChange(t, decide, change) {
          WholeSecondStartStaysWithinHorizon(rules, month, t, zone, decide, change);
        }
      }
    } else {
      FractionalStartOvershoots(start, month);
    }
  }
}
