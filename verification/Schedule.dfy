/** The schedule rules: when one matches a local reading, and which one wins.

    A reading is the local wall clock as nanoseconds since a fixed midnight, so
    a day number and a minute of the day can be read off it. The month of a day
    is the calendar library's business and is a parameter, `month`. */
module Schedule {
  import opened Common

  const SECOND := 1_000_000_000
  const MINUTE := 60_000_000_000
  const DAY := 86_400_000_000_000

  type Minute = m: int | 0 <= m < 1440

  /** A validated rule: its times are parsed, and absent or given as a pair. */
  datatype Rule = Rule(
    id: string,
    playlist: string,
    connector: string,
    months: seq<int>,
    weekdays: seq<int>,
    start: Option<Minute>,
    end: Option<Minute>,
    enabled: bool
  )

  /** What the calendar says of a day number. */
  type Calendar = int -> int

  function DayOf(at: int): int {
    at / 86_400_000_000_000
  }

  function MinuteOf(at: int): int {
    (at % 86_400_000_000_000) / 60_000_000_000
  }

  /** The first reading of `minute` on `day`. */
  function Edge(day: int, minute: int): int {
    day * 86_400_000_000_000 + minute * 60_000_000_000
  }

  /** Monday is 0; day 0 is a Thursday. */
  function Weekday(day: int): int {
    (day + 3) % 7
  }

  /** Whether `minute` is inside the rule's window, and whether it is in the
      part of a wrapped window that comes after midnight. */
  function Window(rule: Rule, minute: int): (bool, bool) {
    match (rule.start, rule.end)
    case (None, None) => (true, false)
    case (Some(start), Some(end)) =>
      if start == end then (true, false)
      else if start < end then (start <= minute && minute < end, false)
      else (minute >= start || minute < end, minute < end)
    case _ => (false, false)
  }

  predicate Matches(rule: Rule, month: Calendar, at: int) {
    var (within, tail) := Window(rule, MinuteOf(at));
    // The tail of a wrapped window belongs to the day on which it started.
    var day := if tail then DayOf(at) - 1 else DayOf(at);
    && rule.enabled
    && within
    && (rule.months == [] || month(day) in rule.months)
    && (rule.weekdays == [] || Weekday(day) in rule.weekdays)
  }

  // ---- What a match is ----

  /** The minute of its day at which a rule's window opens, and how many minutes
      it lasts: without times, or with equal ones, the whole day; with the end
      before the start, to the end on the next day. */
  function OpensAt(rule: Rule): int {
    if rule.start.Some? && rule.start != rule.end then rule.start.value else 0
  }

  function Lasts(rule: Rule): int
    requires rule.start.Some? <==> rule.end.Some?
  {
    if rule.start == rule.end then 1440
    else if rule.start.value < rule.end.value then rule.end.value - rule.start.value
    else 1440 - rule.start.value + rule.end.value
  }

  /** The window that opens on `day`, a day of the rule's months and weekdays,
      holds the reading. */
  ghost predicate Covers(rule: Rule, month: Calendar, day: int, at: int)
    requires rule.start.Some? <==> rule.end.Some?
  {
    && (rule.months == [] || month(day) in rule.months)
    && (rule.weekdays == [] || Weekday(day) in rule.weekdays)
    && Edge(day, OpensAt(rule)) <= at < Edge(day, OpensAt(rule) + Lasts(rule))
  }

  /** A rule matches exactly while a window of it is open that opened on one of
      its days: what comes after midnight counts for the day before. */
  lemma MatchesExactly(rule: Rule, month: Calendar, at: int)
    ensures Matches(rule, month, at) <==>
      && rule.enabled && (rule.start.Some? <==> rule.end.Some?)
      && exists day :: Covers(rule, month, day, at)
  {
    hide Weekday;
    Placed(at);
    if rule.start.Some? <==> rule.end.Some? {
      var today := DayOf(at);
      if Matches(rule, month, at) {
        assert Covers(rule, month, if Window(rule, MinuteOf(at)).1 then today - 1 else today, at);
      }
      if day :| Covers(rule, month, day, at) {
        OpenToday(rule, day, at);
      }
    }
  }

  /** A window open at a reading opened on its day or the day before. */
  lemma OpenToday(rule: Rule, day: int, at: int)
    requires rule.start.Some? <==> rule.end.Some?
    requires Edge(day, OpensAt(rule)) <= at < Edge(day, OpensAt(rule) + Lasts(rule))
    ensures Window(rule, MinuteOf(at)) == (true, day != DayOf(at)) && (day == DayOf(at) || day == DayOf(at) - 1)
  {
    Placed(at);
  }

  /** Days of the week follow each other from day 0, a Thursday, with Monday
      as 0. */
  lemma WeekdaysFollow(day: int)
    ensures Weekday(0) == 3 && 0 <= Weekday(day) < 7
    ensures Weekday(day + 1) == if Weekday(day) == 6 then 0 else Weekday(day) + 1
  {
  }

  // ---- Which rule wins ----

  /** Whether `rule` is visible to a scope: the mirrored one (None) sees only
      rules without a connector. */
  predicate Visible(rule: Rule, connector: Option<string>) {
    rule.connector == "" || (connector.Some? && rule.connector == connector.value)
  }

  predicate Targets(rule: Rule, connector: string) {
    rule.connector != "" && rule.connector == connector
  }

  /** `k` is the last of `rules` that `eligible` lets win at `at`; no index
      (None) when none does. */
  ghost predicate IsLastMatch(rules: seq<Rule>, month: Calendar, eligible: Rule -> bool, at: int, k: Option<nat>) {
    match k
    case Some(k) =>
      && k < |rules|
      && eligible(rules[k]) && Matches(rules[k], month, at)
      && forall j :: k < j < |rules| ==> !(eligible(rules[j]) && Matches(rules[j], month, at))
    case None =>
      forall j :: 0 <= j < |rules| ==> !(eligible(rules[j]) && Matches(rules[j], month, at))
  }

  function LastMatch(rules: seq<Rule>, month: Calendar, eligible: Rule -> bool, at: int): (k: Option<nat>)
    ensures IsLastMatch(rules, month, eligible, at, k)
  {
    if rules == [] then None
    else
      var last := |rules| - 1;
      if eligible(rules[last]) && Matches(rules[last], month, at) then Some(last)
      else LastMatch(rules[..last], month, eligible, at)
  }

  method ResolveRuleFor(rules: seq<Rule>, month: Calendar, connector: Option<string>, at: int) returns (chosen: Option<Rule>)
    ensures chosen == RuleAt(rules, LastMatch(rules, month, rule => Visible(rule, connector), at))
  {
    var eligible := rule => Visible(rule, connector);
    chosen := None;
    for i := 0 to |rules|
      invariant chosen == RuleAt(rules[..i], LastMatch(rules[..i], month, eligible, at))
    {
      assert rules[..i + 1][..i] == rules[..i];
      if eligible(rules[i]) && Matches(rules[i], month, at) {
        chosen := Some(rules[i]);
      }
    }
    assert rules[..|rules|] == rules;
  }

  method ResolveTargetedRule(rules: seq<Rule>, month: Calendar, connector: string, at: int) returns (chosen: Option<Rule>)
    ensures chosen == RuleAt(rules, LastMatch(rules, month, rule => Targets(rule, connector), at))
  {
    var eligible := rule => Targets(rule, connector);
    chosen := None;
    for i := 0 to |rules|
      invariant chosen == RuleAt(rules[..i], LastMatch(rules[..i], month, eligible, at))
    {
      assert rules[..i + 1][..i] == rules[..i];
      if eligible(rules[i]) && Matches(rules[i], month, at) {
        chosen := Some(rules[i]);
      }
    }
    assert rules[..|rules|] == rules;
  }

  function RuleAt(rules: seq<Rule>, k: Option<nat>): Option<Rule>
    requires k.Some? ==> k.value < |rules|
  {
    if k.Some? then Some(rules[k.value]) else None
  }

  // ---- What a route decision may depend on ----

  ghost predicate SameMatches(rules: seq<Rule>, month: Calendar, a: int, b: int) {
    forall rule :: rule in rules ==> Matches(rule, month, a) == Matches(rule, month, b)
  }

  /** `decide` looks at a reading only through what matches at it. */
  ghost predicate Follows<T(!new)>(rules: seq<Rule>, month: Calendar, decide: int -> T) {
    forall a, b :: SameMatches(rules, month, a, b) ==> decide(a) == decide(b)
  }

  lemma {:induction false} LastMatchDependsOnMatches(rules: seq<Rule>, month: Calendar, eligible: Rule -> bool, a: int, b: int)
    requires SameMatches(rules, month, a, b)
    ensures LastMatch(rules, month, eligible, a) == LastMatch(rules, month, eligible, b)
  {
    if rules != [] {
      LastMatchDependsOnMatches(rules[..|rules| - 1], month, eligible, a, b);
    }
  }

  /** A display's own assignment, as far as routing asks about it. */
  datatype Assignment = Assignment(playlist: string, beatsGlobalRules: bool)

  datatype Source = FromSchedule | FromAssignment | FromDefault

  /** The automatic winner for one independent connector: the playlist, why, and
      the rule that chose it.
      A display that beats global rules sees only the rules aimed at it. */
  function AutomaticRoute(
    rules: seq<Rule>, month: Calendar, connector: string, assignment: Option<Assignment>, fallback: string, at: int
  ): (string, Source, Option<string>)
  {
    var eligible :=
      if assignment.Some? && assignment.value.beatsGlobalRules
      then (rule: Rule) => Targets(rule, connector)
      else (rule: Rule) => Visible(rule, Some(connector));
    match RuleAt(rules, LastMatch(rules, month, eligible, at))
    case Some(rule) => (rule.playlist, FromSchedule, Some(rule.id))
    case None =>
      if assignment.Some? then (assignment.value.playlist, FromAssignment, None) else (fallback, FromDefault, None)
  }

  /** A rule may decide for a display: one that names it, or a global one where
      the display's own assignment doesn't beat those. */
  predicate MayDecide(rule: Rule, connector: string, assignment: Option<Assignment>) {
    if rule.connector == "" then assignment.None? || !assignment.value.beatsGlobalRules else rule.connector == connector
  }

  predicate Decides(rules: seq<Rule>, month: Calendar, connector: string, assignment: Option<Assignment>, at: int, k: nat) {
    k < |rules| && MayDecide(rules[k], connector, assignment) && Matches(rules[k], month, at)
  }

  ghost predicate DecidesLast(
    rules: seq<Rule>, month: Calendar, connector: string, assignment: Option<Assignment>, at: int, k: nat
  )
  {
    && Decides(rules, month, connector, assignment, at, k)
    && forall j: nat :: k < j ==> !Decides(rules, month, connector, assignment, at, j)
  }

  /** The last rule that may decide and matches wins; else the assignment; else
      the default. */
  lemma AutomaticRouteIs(
    rules: seq<Rule>, month: Calendar, connector: string, assignment: Option<Assignment>, fallback: string, at: int
  )
    ensures var route := AutomaticRoute(rules, month, connector, assignment, fallback, at);
      && (forall k: nat | DecidesLast(rules, month, connector, assignment, at, k) ::
            route == (rules[k].playlist, FromSchedule, Some(rules[k].id)))
      && ((forall k: nat :: !Decides(rules, month, connector, assignment, at, k)) ==>
            route == if assignment.Some? then (assignment.value.playlist, FromAssignment, None) else (fallback, FromDefault, None))
  {
    hide Matches;
    var eligible :=
      if assignment.Some? && assignment.value.beatsGlobalRules
      then (rule: Rule) => Targets(rule, connector)
      else (rule: Rule) => Visible(rule, Some(connector));
    var last := LastMatch(rules, month, eligible, at);
    assert forall k: nat :: Decides(rules, month, connector, assignment, at, k) <==>
      k < |rules| && eligible(rules[k]) && Matches(rules[k], month, at);
    if last.Some? {
      assert Decides(rules, month, connector, assignment, at, last.value);
    }
  }

  /** A route decision changes only when some rule's match does: what the
      search for the next change relies on. */
  lemma AutomaticRouteFollowsTheRules(
    rules: seq<Rule>, month: Calendar, connector: string, assignment: Option<Assignment>, fallback: string
  )
    ensures Follows(rules, month, at => AutomaticRoute(rules, month, connector, assignment, fallback, at))
  {
    var decide := at => AutomaticRoute(rules, month, connector, assignment, fallback, at);
    forall a, b | SameMatches(rules, month, a, b)
      ensures decide(a) == decide(b)
    {
      var eligible :=
        if assignment.Some? && assignment.value.beatsGlobalRules
        then (rule: Rule) => Targets(rule, connector)
        else (rule: Rule) => Visible(rule, Some(connector));
      LastMatchDependsOnMatches(rules, month, eligible, a, b);
    }
  }

  // ---- The minutes at which a match can change ----

  predicate Ascending(minutes: seq<int>) {
    forall i, j :: 0 <= i < j < |minutes| ==> minutes[i] < minutes[j]
  }

  /** `m` put in its place, once: what sorting and dropping repeats do to a
      list it is pushed to. */
  function Insert(minutes: seq<int>, m: int): (r: seq<int>)
    requires Ascending(minutes)
    ensures Ascending(r)
    ensures forall x :: x in r <==> x == m || x in minutes
    ensures |r| <= |minutes| + 1
  {
    if minutes == [] || m < minutes[0] then [m] + minutes
    else if m == minutes[0] then minutes
    else
      var rest := Insert(minutes[1..], m);
      assert forall x :: x in minutes <==> x == minutes[0] || x in minutes[1..];
      InFront(minutes, m, rest);
      [minutes[0]] + rest
  }

  lemma InFront(minutes: seq<int>, m: int, rest: seq<int>)
    requires minutes != [] && Ascending(minutes) && minutes[0] < m && Ascending(rest)
    requires forall x :: x in rest ==> x == m || x in minutes[1..]
    ensures Ascending([minutes[0]] + rest)
  {
    forall i | 0 <= i < |rest|
      ensures minutes[0] < rest[i]
    {
      assert rest[i] in rest;
      if rest[i] != m {
        var j :| 0 <= j < |minutes[1..]| && minutes[1..][j] == rest[i];
        assert minutes[j + 1] == rest[i];
      }
    }
  }

  /** Midnight, and every enabled rule's start and end. */
  predicate IsEdgeMinute(rules: seq<Rule>, m: int) {
    m == 0 || exists rule :: rule in rules && rule.enabled && (rule.start == Some(m) || rule.end == Some(m))
  }

  method EdgeMinutes(rules: seq<Rule>) returns (minutes: seq<int>)
    ensures Ascending(minutes)
    ensures forall m :: m in minutes <==> IsEdgeMinute(rules, m)
    ensures |minutes| <= 2 * |rules| + 1
  {
    minutes := [0];
    for i := 0 to |rules|
      invariant Ascending(minutes)
      invariant forall m :: m in minutes <==> IsEdgeMinute(rules[..i], m)
      invariant |minutes| <= 2 * i + 1
    {
      var rule := rules[i];
      assert forall r :: r in rules[..i + 1] <==> r == rule || r in rules[..i];
      if rule.enabled {
        if rule.start.Some? {
          minutes := Insert(minutes, rule.start.value);
        }
        if rule.end.Some? {
          minutes := Insert(minutes, rule.end.value);
        }
      }
    }
    assert rules[..|rules|] == rules;
  }

  lemma Placed(at: int)
    ensures 0 <= MinuteOf(at) < 1440
    ensures Edge(DayOf(at), MinuteOf(at)) <= at < Edge(DayOf(at), MinuteOf(at) + 1)
  {
  }

  /** No edge falls after `a` and up to `b`. */
  ghost predicate NoEdgeUpTo(rules: seq<Rule>, a: int, b: int) {
    forall day, m :: IsEdgeMinute(rules, m) ==> !(a < Edge(day, m) <= b)
  }

  /** Between two neighbouring edges every rule keeps its answer. */
  lemma MatchesChangeOnlyAtEdges(rules: seq<Rule>, month: Calendar, a: int, b: int)
    requires a <= b && NoEdgeUpTo(rules, a, b)
    ensures SameMatches(rules, month, a, b)
  {
    Placed(a);
    Placed(b);
    assert IsEdgeMinute(rules, 0);
    assert DayOf(a) == DayOf(b) by {
      assert !(a < Edge(DayOf(b), 0) <= b);
    }
    forall rule | rule in rules
      ensures Matches(rule, month, a) == Matches(rule, month, b)
    {
      if rule.enabled {
        if rule.start.Some? {
          assert IsEdgeMinute(rules, rule.start.value);
          SameSide(rules, rule.start.value, a, b);
        }
        if rule.end.Some? {
          assert IsEdgeMinute(rules, rule.end.value);
          SameSide(rules, rule.end.value, a, b);
        }
      }
    }
  }

  lemma SameSide(rules: seq<Rule>, m: int, a: int, b: int)
    requires a <= b && NoEdgeUpTo(rules, a, b) && DayOf(a) == DayOf(b)
    requires IsEdgeMinute(rules, m)
    ensures m <= MinuteOf(a) <==> m <= MinuteOf(b)
  {
    Placed(a);
    Placed(b);
    assert !(a < Edge(DayOf(b), m) <= b);
  }
}
