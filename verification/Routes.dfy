/** The displays' own routes: one for each connected display and each assigned
    one, and as many of the others, most recently seen, as are kept. */
module Routes {
  import opened Common
  import opened Names

  const MAX_LIVE := 64
  const MAX_RETAINED := 64
  const GENERATIONS := 0x1_0000_0000_0000_0000

  /** A route, as far as keeping it goes. */
  datatype Route = Route(playlist: string, lastSeen: nat)

  datatype Outcome =
    | Reconciled
    | TooManyLive
    | Undecided(connector: string)
    | CouldNotEvict

  function Connected(outputs: seq<string>): (r: seq<string>)
    ensures Sorted(r) && forall c :: c in r <==> c in outputs && c != ""
  {
    SortedOf(NonEmpty(outputs))
  }

  function NonEmpty(names: seq<string>): (r: seq<string>)
    ensures forall n :: n in r <==> n in names && n != ""
    ensures |r| <= |names|
  {
    if names == [] then []
    else
      assert forall n :: n in names <==> n == names[0] || n in names[1..];
      if names[0] == "" then NonEmpty(names[1..]) else [names[0]] + NonEmpty(names[1..])
  }

  function Next(generation: nat): nat {
    (generation + 1) % GENERATIONS
  }

  /** What may go: neither connected nor assigned. */
  function Loose(routes: map<string, Route>, connected: set<string>, reserved: set<string>): set<string> {
    routes.Keys - connected - reserved
  }

  /** The routes `before`, with those of `kept` left and the others, which are
      loose and were seen no later than any loose one left, gone. */
  ghost predicate Evicted(before: map<string, Route>, kept: map<string, Route>, connected: set<string>, reserved: set<string>) {
    && kept.Keys <= before.Keys
    && (forall c :: c in kept ==> kept[c] == before[c])
    && before.Keys - kept.Keys <= Loose(before, connected, reserved)
    && (forall gone, left ::
          gone in before.Keys - kept.Keys && left in Loose(kept, connected, reserved) ==>
            before[gone].lastSeen <= before[left].lastSeen)
    && (before.Keys != kept.Keys ==> |kept.Keys - connected| == MAX_RETAINED)
  }

  class DisplayRoutes {
    var routes: map<string, Route>
    var generation: nat
    var pending: set<string>

    constructor ()
      ensures routes == map[] && generation == 0 && pending == {}
    {
      routes, generation, pending := map[], 0, {};
    }

    /** A new route, stamped now; what it plays is `decide`'s. */
    method Insert(connector: string, decide: string -> Option<string>) returns (outcome: Outcome)
      modifies this`routes
      ensures if decide(connector).None? then outcome == Undecided(connector) && routes == old(routes)
              else outcome == Reconciled && routes == old(routes)[connector := Route(decide(connector).value, generation)]
    {
      var playlist := decide(connector);
      if playlist.None? {
        return Undecided(connector);
      }
      routes := routes[connector := Route(playlist.value, generation)];
      outcome := Reconciled;
    }

    /** Each of `names`, in turn, seen at a generation of its own; a new route
        where there is none. */
    method See(names: seq<string>, decide: string -> Option<string>) returns (outcome: Outcome)
      requires NoRepeats(names)
      modifies this`routes, this`generation
      ensures outcome == Reconciled || (outcome.Undecided? && decide(outcome.connector).None?)
      ensures outcome == Reconciled ==>
        && generation == Later(old(generation), |names|)
        && SeenNow(old(routes), old(generation), routes, names, decide)
    {
      ghost var before := routes;
      assert names[..0] == [];
      for n := 0 to |names|
        invariant generation == Later(old(generation), n)
        invariant SeenNow(before, old(generation), routes, names[..n], decide)
      {
        var connector := names[n];
        ghost var was := routes;
        generation := Next(generation);
        if connector in routes {
          routes := routes[connector := routes[connector].(lastSeen := generation)];
        } else {
          outcome := Insert(connector, decide);
          if outcome != Reconciled {
            return;
          }
        }
        SeeOneMore(before, old(generation), was, routes, names, n, decide);
      }
      assert names[..|names|] == names;
      outcome := Reconciled;
    }

    /** The first least recently seen of some loose routes. */
    method LeastRecent(loose: set<string>) returns (least: string)
      requires loose != {} && loose <= routes.Keys
      ensures least in loose && forall c :: c in loose ==> routes[least].lastSeen <= routes[c].lastSeen
    {
      least :| least in loose;
      var left := loose - {least};
      while left != {}
        invariant left <= loose && least in loose
        invariant forall c :: c in loose - left ==> routes[least].lastSeen <= routes[c].lastSeen
        decreases left
      {
        var c :| c in left;
        left := left - {c};
        if routes[c].lastSeen < routes[least].lastSeen {
          least := c;
        }
      }
    }

    /** Evict loose routes, the least recently seen first, while more than 64
        are kept of displays that aren't connected. */
    method Evict(connected: set<string>, reserved: set<string>) returns (outcome: Outcome)
      requires |reserved| <= MAX_RETAINED
      modifies this`routes
      ensures outcome == Reconciled
      ensures |routes.Keys - connected| <= MAX_RETAINED
      ensures Evicted(old(routes), routes, connected, reserved)
    {
      ghost var before := routes;
      while |routes.Keys - connected| > MAX_RETAINED
        invariant Evicting(before, routes, connected, reserved)
        invariant before.Keys != routes.Keys ==> |routes.Keys - connected| >= MAX_RETAINED
        decreases |routes.Keys - connected|
      {
        var loose := Loose(routes, connected, reserved);
        SomeLoose(routes.Keys - connected, reserved);
        if loose == {} {
          return CouldNotEvict;
        }
        var evicted := LeastRecent(loose);
        EvictOne(before, routes, connected, reserved, evicted);
        routes := routes - {evicted};
      }
      outcome := Reconciled;
    }

    /** After a probe: a route for each connected display and each assigned
        one, and at most 64 of displays that aren't connected. */
    method Reconcile(outputs: seq<string>, displays: seq<string>, decide: string -> Option<string>)
      returns (outcome: Outcome, ghost stamped: map<string, Route>)
      requires |displays| <= MAX_RETAINED && NoRepeats(displays)
      modifies this
      ensures outcome == TooManyLive <==> |Connected(outputs)| > MAX_LIVE
      ensures outcome == TooManyLive ==> routes == old(routes) && generation == old(generation) && pending == old(pending)
      ensures outcome != CouldNotEvict
      ensures outcome.Undecided? ==> decide(outcome.connector).None?
      ensures outcome == Reconciled ==>
        var connected, unrouted := Connected(outputs), Unrouted(NonEmpty(displays), old(routes).Keys + SetOf(Connected(outputs)));
        && pending == old(pending) * SetOf(connected)
        && SeenNow(old(routes), old(generation), stamped, connected + unrouted, decide)
        && generation == Later(old(generation), |connected + unrouted|)
        && Evicted(stamped, routes, SetOf(connected), SetOf(displays))
        && SetOf(connected) + SetOf(NonEmpty(displays)) <= routes.Keys
        && |routes.Keys - SetOf(connected)| <= MAX_RETAINED && |routes| <= MAX_LIVE + MAX_RETAINED
    {
      hide SeenNow, Evicted, Later, NoRepeats, Sorted;
      stamped := routes;
      var connected := Connected(outputs);
      if |connected| > MAX_LIVE {
        return TooManyLive, stamped;
      }
      var live := SetOf(connected);
      pending := pending * live;
      outcome := SeeAll(connected, NonEmpty(displays), decide) by {
        SortedDiffer(connected);
        NonEmptyDiffer(displays);
      }
      if outcome != Reconciled {
        return;
      }
      stamped := routes;
      SizeOfNoRepeats(displays);
      outcome := Evict(live, SetOf(displays));
      AllRouted(old(routes), old(generation), stamped, routes, outputs, displays, decide);
    }

    /** The connected displays, then the assigned ones without a route. */
    method SeeAll(connected: seq<string>, displays: seq<string>, decide: string -> Option<string>) returns (outcome: Outcome)
      requires NoRepeats(connected) && NoRepeats(displays)
      modifies this`routes, this`generation
      ensures outcome == Reconciled || (outcome.Undecided? && decide(outcome.connector).None?)
      ensures outcome == Reconciled ==>
        var unrouted := Unrouted(displays, old(routes).Keys + SetOf(connected));
        && SeenNow(old(routes), old(generation), routes, connected + unrouted, decide)
        && generation == Later(old(generation), |connected + unrouted|)
    {
      hide SeenNow, Later, NoRepeats;
      outcome := See(connected, decide);
      if outcome != Reconciled {
        return;
      }
      ghost var before := routes;
      SeenKeys(old(routes), old(generation), before, connected, decide);
      var unrouted := Unrouted(displays, routes.Keys);
      UnroutedDiffer(displays, routes.Keys);
      outcome := See(unrouted, decide);
      if outcome != Reconciled {
        return;
      }
      SeenThen(old(routes), old(generation), before, routes, connected, unrouted, decide);
    }
  }

  /** The n-th generation after one. */
  function Later(generation: nat, n: nat): nat {
    if n == 0 then generation else Next(Later(generation, n - 1))
  }

  /** The routes after each of `names` was seen: that many generations later;
      the others are as they were. */
  ghost predicate SeenNow(
    before: map<string, Route>, generation: nat, after: map<string, Route>, names: seq<string>, decide: string -> Option<string>
  )
  {
    && after.Keys == before.Keys + SetOf(names)
    && (forall c :: c in before && c !in names ==> after[c] == before[c])
    && (forall i :: 0 <= i < |names| ==> names[i] in after && SeenAs(before, after[names[i]], names[i], Later(generation, i + 1), decide))
  }

  predicate SeenAs(before: map<string, Route>, route: Route, name: string, at: nat, decide: string -> Option<string>) {
    && route.lastSeen == at
    && Some(route.playlist) == if name in before then Some(before[name].playlist) else decide(name)
  }

  lemma SeeOneMore(
    before: map<string, Route>, generation: nat, was: map<string, Route>, after: map<string, Route>,
    names: seq<string>, n: nat, decide: string -> Option<string>
  )
    requires n < |names| && NoRepeats(names) && SeenNow(before, generation, was, names[..n], decide)
    requires names[n] in was || decide(names[n]).Some?
    requires var playlist := if names[n] in was then was[names[n]].playlist else decide(names[n]).value;
             after == was[names[n] := Route(playlist, Later(generation, n + 1))]
    ensures SeenNow(before, generation, after, names[..n + 1], decide)
  {
    var more := names[..n + 1];
    assert more == names[..n] + [names[n]];
    assert names[n] !in names[..n];
    forall i | 0 <= i < |more|
      ensures more[i] in after && SeenAs(before, after[more[i]], more[i], Later(generation, i + 1), decide)
    {
      if i < n {
        assert more[i] == names[..n][i] && more[i] != names[n];
      }
    }
  }

  lemma {:induction false} LaterAdds(generation: nat, a: nat, b: nat)
    ensures Later(Later(generation, a), b) == Later(generation, a + b)
    decreases b
  {
    if b > 0 {
      LaterAdds(generation, a, b - 1);
    }
  }

  /** Two lists seen, one after the other. */
  lemma SeenThen(
    before: map<string, Route>, generation: nat, between: map<string, Route>, after: map<string, Route>,
    first: seq<string>, second: seq<string>, decide: string -> Option<string>
  )
    requires SeenNow(before, generation, between, first, decide)
    requires SeenNow(between, Later(generation, |first|), after, second, decide)
    requires forall n :: n in second ==> n !in between
    ensures SeenNow(before, generation, after, first + second, decide)
    ensures Later(Later(generation, |first|), |second|) == Later(generation, |first + second|)
  {
    var names := first + second;
    LaterAdds(generation, |first|, |second|);
    assert SetOf(names) == SetOf(first) + SetOf(second);
    forall i | 0 <= i < |names|
      ensures names[i] in after && SeenAs(before, after[names[i]], names[i], Later(generation, i + 1), decide)
    {
      if i < |first| {
        assert names[i] == first[i] && first[i] in between && first[i] !in second;
      } else {
        assert names[i] == second[i - |first|] && second[i - |first|] in second;
        LaterAdds(generation, |first|, i - |first| + 1);
      }
    }
  }

  /** Connected and assigned displays have routes, and the others are few. */
  lemma AllRouted(
    before: map<string, Route>, generation: nat, stamped: map<string, Route>, kept: map<string, Route>,
    outputs: seq<string>, displays: seq<string>, decide: string -> Option<string>
  )
    requires |Connected(outputs)| <= MAX_LIVE
    requires var connected := Connected(outputs);
      && SeenNow(before, generation, stamped, connected + Unrouted(NonEmpty(displays), before.Keys + SetOf(connected)), decide)
      && Evicted(stamped, kept, SetOf(connected), SetOf(displays))
      && |kept.Keys - SetOf(connected)| <= MAX_RETAINED
    ensures SetOf(Connected(outputs)) + SetOf(NonEmpty(displays)) <= kept.Keys
    ensures |kept| <= MAX_LIVE + MAX_RETAINED
  {
    hide SeenNow, Evicted, Later, Sorted;
    var connected := Connected(outputs);
    var live := SetOf(connected);
    SizeOfSorted(connected);
    SeenKeys(before, generation, stamped, connected + Unrouted(NonEmpty(displays), before.Keys + live), decide);
    NoneMissing(stamped, kept, live, SetOf(displays), SetOf(NonEmpty(displays)));
  }

  lemma SeenKeys(
    before: map<string, Route>, generation: nat, after: map<string, Route>, names: seq<string>, decide: string -> Option<string>
  )
    requires SeenNow(before, generation, after, names, decide)
    ensures after.Keys == before.Keys + SetOf(names)
  {
  }

  // ---- Eviction ----

  /** Connected and assigned displays keep their routes. */
  lemma NoneMissing(
    stamped: map<string, Route>, kept: map<string, Route>, live: set<string>, reserved: set<string>, named: set<string>
  )
    requires Evicted(stamped, kept, live, reserved) && live + named <= stamped.Keys && named <= reserved
    ensures live + named <= kept.Keys
    ensures |kept| == |kept.Keys - live| + |live|
  {
    assert kept.Keys == (kept.Keys - live) + live;
  }

  /** While evicting: `Evicted`, without its count. */
  ghost predicate Evicting(before: map<string, Route>, kept: map<string, Route>, connected: set<string>, reserved: set<string>) {
    && kept.Keys <= before.Keys
    && (forall c :: c in kept ==> kept[c] == before[c])
    && before.Keys - kept.Keys <= Loose(before, connected, reserved)
    && (forall gone, left ::
          gone in before.Keys - kept.Keys && left in Loose(kept, connected, reserved) ==>
            before[gone].lastSeen <= before[left].lastSeen)
  }

  lemma EvictOne(
    before: map<string, Route>, kept: map<string, Route>, connected: set<string>, reserved: set<string>, evicted: string
  )
    requires Evicting(before, kept, connected, reserved)
    requires evicted in Loose(kept, connected, reserved)
    requires forall c :: c in Loose(kept, connected, reserved) ==> kept[evicted].lastSeen <= kept[c].lastSeen
    ensures Evicting(before, kept - {evicted}, connected, reserved)
    ensures |(kept - {evicted}).Keys - connected| == |kept.Keys - connected| - 1
  {
    var after := kept - {evicted};
    assert after.Keys - connected == (kept.Keys - connected) - {evicted};
    assert Loose(after, connected, reserved) == Loose(kept, connected, reserved) - {evicted};
    assert before.Keys - after.Keys == before.Keys - kept.Keys + {evicted};
  }

  /** More than are assigned leaves one that isn't. */
  lemma SomeLoose(detached: set<string>, reserved: set<string>)
    requires |detached| > |reserved|
    ensures detached - reserved != {}
  {
    if detached - reserved == {} {
      forall x | x in detached
        ensures x in reserved
      {
        assert x in detached - reserved || x in reserved;
      }
      SubsetSize(detached, reserved);
    }
  }

  // ---- Lists of names ----

  lemma SortedDiffer(names: seq<string>)
    requires Sorted(names)
    ensures NoRepeats(names)
  {
    forall i, j | 0 <= i < j < |names|
      ensures names[i] != names[j]
    {
      NotBeforeItself(names[i]);
    }
  }

  lemma {:induction false} NonEmptyDiffer(names: seq<string>)
    requires NoRepeats(names)
    ensures NoRepeats(NonEmpty(names))
  {
    if names != [] {
      NonEmptyDiffer(names[1..]);
      assert names[0] !in names[1..];
      assert names[0] !in NonEmpty(names[1..]);
    }
  }

  lemma {:induction false} UnroutedDiffer(names: seq<string>, routed: set<string>)
    requires NoRepeats(names)
    ensures NoRepeats(Unrouted(names, routed))
  {
    if names != [] {
      UnroutedDiffer(names[1..], routed);
      assert names[0] !in names[1..];
      assert names[0] !in Unrouted(names[1..], routed);
    }
  }

  function Unrouted(names: seq<string>, routed: set<string>): (r: seq<string>)
    ensures forall n :: n in r <==> n in names && n !in routed
  {
    if names == [] then []
    else
      assert forall n :: n in names <==> n == names[0] || n in names[1..];
      if names[0] in routed then Unrouted(names[1..], routed) else [names[0]] + Unrouted(names[1..], routed)
  }
}
