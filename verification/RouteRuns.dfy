/** Over every run of probes, which routes go. */
module RouteRuns {
  import opened Common
  import opened Routes

  datatype Kept = Kept(routes: map<string, Route>, generation: nat)

  /** One reconciliation that succeeds: what it is told, and the routes once
      all were seen, before any was evicted. */
  datatype Probe = Probe(outputs: seq<string>, displays: seq<string>, decide: string -> Option<string>, stamped: map<string, Route>)

  function Seen(before: Kept, p: Probe): seq<string> {
    Connected(p.outputs) + Unrouted(NonEmpty(p.displays), before.routes.Keys + SetOf(Connected(p.outputs)))
  }

  /** As `Reconcile` promises. */
  ghost predicate Step(before: Kept, p: Probe, after: Kept) {
    && SeenNow(before.routes, before.generation, p.stamped, Seen(before, p), p.decide)
    && after.generation == Later(before.generation, |Seen(before, p)|)
    && Evicted(p.stamped, after.routes, SetOf(Connected(p.outputs)), SetOf(p.displays))
  }

  /** The last of some steps in which a display was seen, or its route made;
      -1 when in none. */
  function LastStep(steps: seq<set<string>>, c: string): (r: int)
    ensures -1 <= r < |steps|
  {
    if steps == [] then -1
    else if c in steps[|steps| - 1] then |steps| - 1
    else LastStep(steps[..|steps| - 1], c)
  }

  /** The generations tell who was seen later. */
  ghost predicate Agrees(k: Kept, steps: seq<set<string>>) {
    && (forall c :: c in k.routes ==> k.routes[c].lastSeen <= k.generation)
    && (forall c, d :: c in k.routes && d in k.routes && LastStep(steps, c) < LastStep(steps, d) ==>
          k.routes[c].lastSeen < k.routes[d].lastSeen)
  }

  lemma {:induction false} NoWrap(generation: nat, n: nat)
    requires generation + n < GENERATIONS
    ensures Later(generation, n) == generation + n
    decreases n
  {
    if n > 0 {
      NoWrap(generation, n - 1);
    }
  }

  lemma SeenIsLater(before: Kept, p: Probe, steps: seq<set<string>>)
    requires Agrees(before, steps) && before.generation + |Seen(before, p)| < GENERATIONS
    requires SeenNow(before.routes, before.generation, p.stamped, Seen(before, p), p.decide)
    ensures Agrees(Kept(p.stamped, Later(before.generation, |Seen(before, p)|)), steps + [SetOf(Seen(before, p))])
  {
    hide Seen;
    var names := Seen(before, p);
    var more := steps + [SetOf(names)];
    assert more[..|steps|] == steps;
    NoWrap(before.generation, |names|);
    forall c | c in p.stamped
      ensures if c in names then before.generation < p.stamped[c].lastSeen <= before.generation + |names| && LastStep(more, c) == |steps|
              else c in before.routes && p.stamped[c] == before.routes[c] && LastStep(more, c) == LastStep(steps, c)
    {
      if c in names {
        var i :| 0 <= i < |names| && names[i] == c;
        NoWrap(before.generation, i + 1);
      }
    }
  }

  lemma EvictionAgrees(stamped: Kept, after: Kept, connected: set<string>, reserved: set<string>, steps: seq<set<string>>)
    requires Agrees(stamped, steps) && after.generation == stamped.generation
    requires Evicted(stamped.routes, after.routes, connected, reserved)
    ensures Agrees(after, steps)
    ensures forall gone, left :: gone in stamped.routes && gone !in after.routes && left in Loose(after.routes, connected, reserved) ==>
      LastStep(steps, gone) <= LastStep(steps, left)
  {
    forall gone, left | gone in stamped.routes && gone !in after.routes && left in Loose(after.routes, connected, reserved)
      ensures LastStep(steps, gone) <= LastStep(steps, left)
    {
      assert gone in stamped.routes.Keys - after.routes.Keys;
    }
  }

  ghost predicate Run(states: seq<Kept>, probes: seq<Probe>) {
    && |states| == |probes| + 1
    && forall i :: 0 <= i < |probes| ==> Step(states[i], probes[i], states[i + 1])
  }

  function Steps(states: seq<Kept>, probes: seq<Probe>): (r: seq<set<string>>)
    requires |states| == |probes| + 1
    ensures |r| == |probes|
  {
    seq(|probes|, i requires 0 <= i < |probes| => SetOf(Seen(states[i], probes[i])))
  }

  /** The displays every probe of a run sees, counted. */
  function Count(states: seq<Kept>, probes: seq<Probe>): nat
    requires |states| == |probes| + 1
    decreases |probes|
  {
    if probes == [] then 0
    else
      var last := |probes| - 1;
      Count(states[..last + 1], probes[..last]) + |Seen(states[last], probes[last])|
  }

  lemma {:induction false} RunAgrees(states: seq<Kept>, probes: seq<Probe>)
    requires Run(states, probes) && states[0] == Kept(map[], 0)
    requires Count(states, probes) < GENERATIONS
    ensures Agrees(states[|probes|], Steps(states, probes))
    ensures states[|probes|].generation == Count(states, probes)
    decreases |probes|
  {
    hide Seen, Agrees, SeenNow, Evicted, Later, LastStep;
    if probes == [] {
      NoneAgree();
    } else {
      var last := |probes| - 1;
      var before, p := states[last], probes[last];
      assert Run(states[..last + 1], probes[..last]);
      RunAgrees(states[..last + 1], probes[..last]);
      assert Step(before, p, states[last + 1]);
      var steps := Steps(states[..last + 1], probes[..last]);
      SeenIsLater(before, p, steps);
      NoWrap(before.generation, |Seen(before, p)|);
      var stamped := Kept(p.stamped, Later(before.generation, |Seen(before, p)|));
      assert Steps(states, probes) == steps + [SetOf(Seen(before, p))];
      EvictionAgrees(stamped, states[last + 1], SetOf(Connected(p.outputs)), SetOf(p.displays), Steps(states, probes));
    }
  }

  lemma NoneAgree()
    ensures Agrees(Kept(map[], 0), [])
  {
  }

  /** Over every run of probes, fewer than 2^64 sightings in all: a route that
      goes belongs to no connected and no assigned display, and was last seen
      no later than every other such route that stays. */
  lemma TheLeastRecentlySeenGo(states: seq<Kept>, probes: seq<Probe>, gone: string, left: string)
    requires Run(states, probes) && probes != [] && states[0] == Kept(map[], 0)
    requires Count(states, probes) < GENERATIONS
    requires var p := probes[|probes| - 1];
             && gone in p.stamped && gone !in states[|probes|].routes
             && left in Loose(states[|probes|].routes, SetOf(Connected(p.outputs)), SetOf(p.displays))
    ensures var p := probes[|probes| - 1];
            && gone !in Connected(p.outputs) && gone !in p.displays
            && LastStep(Steps(states, probes), gone) <= LastStep(Steps(states, probes), left)
  {
    hide Seen, Agrees, SeenNow, Later, LastStep, Evicted;
    var last := |probes| - 1;
    var before, p := states[last], probes[last];
    assert Run(states[..last + 1], probes[..last]);
    RunAgrees(states[..last + 1], probes[..last]);
    assert Step(before, p, states[last + 1]);
    var steps := Steps(states[..last + 1], probes[..last]);
    SeenIsLater(before, p, steps);
    NoWrap(before.generation, |Seen(before, p)|);
    var stamped := Kept(p.stamped, Later(before.generation, |Seen(before, p)|));
    assert Steps(states, probes) == steps + [SetOf(Seen(before, p))];
    EvictionAgrees(stamped, states[last + 1], SetOf(Connected(p.outputs)), SetOf(p.displays), Steps(states, probes));
    OnlyLooseGo(p.stamped, states[last + 1].routes, SetOf(Connected(p.outputs)), SetOf(p.displays), gone);
  }

  lemma OnlyLooseGo(before: map<string, Route>, kept: map<string, Route>, connected: set<string>, reserved: set<string>, gone: string)
    requires Evicted(before, kept, connected, reserved) && gone in before && gone !in kept
    ensures gone !in connected && gone !in reserved
  {
    assert gone in before.Keys - kept.Keys;
  }
}
