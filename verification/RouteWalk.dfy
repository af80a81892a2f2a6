/** Past the entries the driver won't start, where each display has a route of
    its own. */
module RouteWalk {
  import opened Common
  import opened Documents
  import opened Shuffling
  import opened Cursors
  import opened CursorRuns
  import opened Refusals
  import opened RefusalWalk

  /** A display's route: what it asks for, what it plays, by its id, and where
      in the entries of the playlist that id finds. */
  datatype Route = Route(wanted: nat, active: nat, cursor: Cursor, shuffle: Option<bool>)

  function Shuffles(d: Document, r: Route): bool
    requires |d.shuffle| == |d.config| && r.active < |d.config|
  {
    if r.shuffle.Some? then r.shuffle.value else d.shuffle[r.active]
  }

  /** What of the route's entries can play, under the id it plays by. */
  function RoutePlayable(d: Document, refused: set<string>, r: Route): Playable
    requires r.active < |d.config|
  {
    PlayableAs(d, refused, r.active, Holder(d, r.active))
  }

  function RouteEntries(d: Document, r: Route): seq<Entry>
    requires r.active < |d.config|
  {
    Entries(d, Holder(d, r.active))
  }

  ghost predicate RouteSound(d: Document, refused: set<string>, r: Route) {
    && |d.shuffle| == |d.config| && r.wanted < |d.config| && r.active < |d.config|
    && Sound(r.cursor, RoutePlayable(d, refused, r), Shuffles(d, r))
  }

  ghost predicate RoutesSound(d: Document, refused: set<string>, routes: seq<Route>) {
    forall i :: 0 <= i < |routes| ==> RouteSound(d, refused, routes[i])
  }

  predicate RestsRefused(d: Document, refused: set<string>, r: Route)
    requires r.active < |d.config|
  {
    var current := Current(r.cursor);
    current.Some? && current.value < |RouteEntries(d, r)| && IsRefused(RouteEntries(d, r)[current.value], refused)
  }

  /** What the display shows: its route's entry, unless the playlist its id
      finds is looked up again to have nothing left and nothing standing in. */
  function RouteTarget(d: Document, refused: set<string>, r: Route): (index: Option<nat>)
    requires Proper(d) && r.active < |d.config|
    ensures index.Some? ==> index.value < |RouteEntries(d, r)| && Current(r.cursor) == index
  {
    if StandIn(d, refused, Holder(d, Holder(d, r.active))).None? then None
    else
      var current := Current(r.cursor);
      if current.Some? && current.value < |RouteEntries(d, r)| then current else None
  }

  /** The display doesn't show a refused entry. */
  ghost predicate RouteFine(d: Document, refused: set<string>, r: Route)
    requires Proper(d) && r.active < |d.config|
  {
    var index := RouteTarget(d, refused, r);
    index.Some? ==> !IsRefused(RouteEntries(d, r)[index.value], refused)
  }

  lemma RouteSoundStill(d: Document, refused: set<string>, more: set<string>, r: Route)
    requires RouteSound(d, refused, r) && refused <= more
    ensures RouteSound(d, more, r)
  {
    SoundWithFewer(RoutePlayable(d, refused, r), RoutePlayable(d, more, r), r.cursor, Shuffles(d, r));
  }

  lemma RoutesSoundStill(d: Document, refused: set<string>, more: set<string>, routes: seq<Route>)
    requires RoutesSound(d, refused, routes) && refused <= more
    ensures RoutesSound(d, more, routes)
  {
    hide RouteSound;
    forall i | 0 <= i < |routes|
      ensures RouteSound(d, more, routes[i])
    {
      RouteSoundStill(d, refused, more, routes[i]);
    }
  }

  /** Nothing of what the id of the playlist at `p` finds can play under that
      id, and one entry at least is refused. */
  predicate IsSpent(d: Document, refused: set<string>, p: nat)
    requires p < |d.config|
  {
    var entries := Entries(d, Holder(d, p));
    && (forall i :: 0 <= i < |entries| ==> CantPlay(d, refused, p, entries[i]))
    && (exists i :: 0 <= i < |entries| && IsRefused(entries[i], refused))
  }

  lemma SpentIsRefusedThroughout(d: Document, refused: set<string>, p: nat)
    requires p < |d.config| && FoundByItself(d, p)
    ensures IsSpent(d, refused, p) <==> RefusedThroughout(d, refused, p)
  {
    if i :| 0 <= i < |Entries(d, p)| && IsRefused(Entries(d, p)[i], refused) {
      assert ItemOf(Entries(d, p)[i]).value in refused;
    }
  }

  /** Next leaves a refused entry, exactly unless nothing of the route can play. */
  lemma RouteMoves(d: Document, refused: set<string>, r: Route, deal: seq<nat>)
    requires RouteSound(d, refused, r) && IsDeal(deal, RoutePlayable(d, refused, r)) && RestsRefused(d, refused, r)
    ensures var (next, moved) := Forward(r.cursor, RoutePlayable(d, refused, r), Shuffles(d, r), deal);
      && RouteSound(d, refused, r.(cursor := next))
      && (moved <==> !IsSpent(d, refused, r.active))
      && (moved <==> !RestsRefused(d, refused, r.(cursor := next)))
  {
    hide Sound, Forward, Holder;
    var playable := RoutePlayable(d, refused, r);
    ForwardIsSound(r.cursor, playable, Shuffles(d, r), deal);
    var entries := RouteEntries(d, r);
    assert IsRefused(entries[Current(r.cursor).value], refused);
    if !IsSpent(d, refused, r.active) {
      var i :| 0 <= i < |entries| && !CantPlay(d, refused, r.active, entries[i]);
      assert Other(playable, Current(r.cursor), i);
      ForwardMoves(r.cursor, playable, Shuffles(d, r), deal);
    }
  }

  /** A route that was stepped over: off refused entries, or with nothing left to
      play and nothing else its decision could name. */
  ghost predicate RouteSettled(d: Document, refused: set<string>, r: Route)
    requires Proper(d)
  {
    && r.wanted < |d.config| && r.active < |d.config|
    && (RestsRefused(d, refused, r) ==> IsSpent(d, refused, r.active) && r.active == Shown(d, refused, r.wanted))
  }

  ghost predicate AllSettled(d: Document, refused: set<string>, routes: seq<Route>) {
    Proper(d) && forall i :: 0 <= i < |routes| ==> RouteSettled(d, refused, routes[i])
  }

  /** The decision names what is played, and that is refused throughout: then
      nothing stands in, and the display shows nothing. */
  lemma NothingLeft(d: Document, refused: set<string>, r: Route)
    requires Proper(d) && OwnIds(d.config) && r.wanted < |d.config| && r.active == Shown(d, refused, r.wanted)
    requires IsSpent(d, refused, r.active)
    ensures RouteTarget(d, refused, r).None?
  {
    hide RefusedThroughout, IsSpent;
    OwnIdsFindThemselves(d.config);
    assert FoundByItself(d, r.active);
    SpentIsRefusedThroughout(d, refused, r.active);
  }

  /** A route that plays what its decision names shows nothing exactly when the
      playlist asked for is refused throughout and nothing stands in, wherever
      what is shown has entries and ids are their own. */
  lemma RouteShowsNothingExactly(d: Document, refused: set<string>, r: Route)
    requires Proper(d) && OwnIds(d.config) && RouteSound(d, refused, r)
    requires r.active == Shown(d, refused, r.wanted) && Entries(d, r.active) != []
    ensures RouteTarget(d, refused, r).None? <==>
      && RefusedThroughout(d, refused, r.wanted)
      && NoHelp(d, refused, r.wanted, Some(d.default)) && NoHelp(d, refused, r.wanted, d.allMedia)
  {
    hide RefusedThroughout, NoHelp;
    OwnIdsFindThemselves(d.config);
    assert FoundByItself(d, r.active);
    NothingStandsIn(d, refused, r.wanted);
    NothingStandsIn(d, refused, r.active);
  }

  /** Where a new cursor starts by itself: the first entry that can play. */
  function FirstPlayable(playable: Playable): (r: nat)
    ensures playable != [] ==> r < |playable|
    ensures playable == [] ==> r == 0
    ensures (exists i: nat :: CanPlay(playable, i)) ==> CanPlay(playable, r) && forall i: nat :: i < r ==> !CanPlay(playable, i)
  {
    var first := NextPlayable(Identity(|playable|), 0, playable);
    assert forall i: nat :: CanPlay(playable, i) ==> Identity(|playable|)[i] == i;
    if first.Some? then first.value else 0
  }

  /** A route that changes to what stands in for it is off refused entries,
      unless nothing of that can play. */
  lemma ChangedRoute(d: Document, refused: set<string>, r: Route, rest: seq<nat>)
    requires Proper(d) && r.wanted < |d.config| && r.active < |d.config|
    requires var playable := RoutePlayable(d, refused, r);
      && IsRest(rest, |playable|, FirstPlayable(playable))
      && r.cursor == Built(|playable|, FirstPlayable(playable), Shuffles(d, r), rest)
    ensures RouteSound(d, refused, r)
    ensures RestsRefused(d, refused, r) ==> IsSpent(d, refused, r.active)
  {
    hide Sound, FirstPlayable, Holder;
    var playable := RoutePlayable(d, refused, r);
    var current := FirstPlayable(playable);
    BuiltIsSound(playable, current, Shuffles(d, r), rest);
    if RestsRefused(d, refused, r) {
      var entries := RouteEntries(d, r);
      assert IsRefused(entries[current], refused) && !CanPlay(playable, current);
      assert forall i: nat :: !CanPlay(playable, i);
      assert forall i :: 0 <= i < |entries| ==> playable[i] == CanPlay(playable, i);
    }
  }

  /** Where ids are their own, no settled route shows a refused entry. */
  lemma SettledIsFine(d: Document, refused: set<string>, r: Route)
    requires Proper(d) && OwnIds(d.config) && RouteSettled(d, refused, r)
    ensures RouteFine(d, refused, r)
  {
    hide IsSpent, Shown, StandIn, OwnIds;
    if RestsRefused(d, refused, r) {
      NothingLeft(d, refused, r);
    }
  }

  lemma AllSettledAreFine(d: Document, refused: set<string>, routes: seq<Route>)
    requires OwnIds(d.config) && AllSettled(d, refused, routes)
    ensures AllFine(d, refused, routes)
  {
    hide RestsRefused, IsSpent, RouteFine, OwnIds;
    forall i | 0 <= i < |routes|
      ensures routes[i].active < |d.config| && RouteFine(d, refused, routes[i])
    {
      assert RouteSettled(d, refused, routes[i]);
      SettledIsFine(d, refused, routes[i]);
    }
  }

  /** A settled route that asks for this playlist may show a refused entry. */
  ghost predicate MayStayRefused(d: Document, refused: set<string>, wanted: nat)
    requires Proper(d)
  {
    exists r: Route ::
      && r.wanted == wanted && RouteSound(d, refused, r) && RouteSettled(d, refused, r) && !RouteFine(d, refused, r)
  }

  /** What the id of the playlist at `p` finds has nothing that can play under
      that id, and is looked up again as one that something stands in for. */
  ghost predicate SpentUnder(d: Document, refused: set<string>, p: nat)
    requires Proper(d) && p < |d.config|
  {
    && IsSpent(d, refused, p)
    && StandIn(d, refused, Holder(d, Holder(d, p))).Some?
  }

  /** A settled route leaves a refused entry up exactly where what it shows is
      spent under the id it plays by, and that is looked up again as something
      to show: so never where its id finds it. */
  lemma RouteShowsRefusedExactly(d: Document, refused: set<string>, wanted: nat)
    requires Proper(d) && wanted < |d.config|
    ensures forall r: Route | r.wanted == wanted && RouteSettled(d, refused, r) ::
      !RouteFine(d, refused, r) <==> RestsRefused(d, refused, r) && SpentUnder(d, refused, r.active)
    ensures MayStayRefused(d, refused, wanted) <==> SpentUnder(d, refused, Shown(d, refused, wanted))
    ensures FoundByItself(d, Shown(d, refused, wanted)) ==> !MayStayRefused(d, refused, wanted)
  {
    hide StandIn, Holder, Sound, RefusedThroughout;
    var a := Shown(d, refused, wanted);
    if SpentUnder(d, refused, a) {
      ShowsRefusedUnder(d, refused, wanted);
    }
    if FoundByItself(d, a) {
      SpentIsRefusedThroughout(d, refused, a);
      StandsInForItself(d, refused, wanted);
    }
  }

  /** What is shown has nothing standing in once it is refused throughout. */
  lemma StandsInForItself(d: Document, refused: set<string>, wanted: nat)
    requires Proper(d) && wanted < |d.config|
    ensures var a := Shown(d, refused, wanted); RefusedThroughout(d, refused, a) ==> StandIn(d, refused, a).None?
  {
    hide RefusedThroughout;
  }

  lemma ShowsRefusedUnder(d: Document, refused: set<string>, wanted: nat)
    requires Proper(d) && wanted < |d.config| && SpentUnder(d, refused, Shown(d, refused, wanted))
    ensures MayStayRefused(d, refused, wanted)
  {
    hide StandIn, Holder, Sound, Built;
    var a := Shown(d, refused, wanted);
    var entries := Entries(d, Holder(d, a));
    var i: nat :| i < |entries| && IsRefused(entries[i], refused);
    IdentityHasAll(|entries|);
    WithoutKeepsOnce(Identity(|entries|), i);
    var rest := Without(Identity(|entries|), i);
    var cursor := Built(|entries|, i, d.shuffle[a], rest);
    var r := Route(wanted, a, cursor, None);
    BuiltIsSound(RoutePlayable(d, refused, r), i, d.shuffle[a], rest);
    assert RestsRefused(d, refused, r) && RouteSound(d, refused, r);
    assert RouteSettled(d, refused, r) && !RouteFine(d, refused, r);
  }

  /** So it is in a document that loads: a route that asks for the second
      playlist by its name shows that, whose id puts up the first's refused
      scene; and no step leaves it. */
  lemma NameHidesARouteRefusal(first: Entry, second: Entry)
    requires first.id != second.id && ItemOf(first).Some? && ItemOf(second).None? && MediaOf(first).Some? && MediaOf(second).Some?
    ensures var d, refused := Document(Hiding(first, second), 1, None, {}, [false, false]), {ItemOf(first).value};
      && Proper(d) && MayStayRefused(d, refused, 1)
      && var r := Route(1, 1, Built(1, 0, false, []), None);
         && RouteSound(d, refused, r) && Stuck(d, refused, r) && RouteSettled(d, refused, r) && !RouteFine(d, refused, r)
  {
    hide MayStayRefused;
    var d, refused := Document(Hiding(first, second), 1, None, {}, [false, false]), {ItemOf(first).value};
    var r := Route(1, 1, Built(1, 0, false, []), None);
    NameHidesAnId(first, second);
    assert Entries(d, 0) == [first] && Entries(d, 1) == [second];
    assert IsRefused(Entries(d, 0)[0], refused);
    assert !RefusedThroughout(d, refused, 1);
    assert r.cursor.order == [0];
    assert RestsRefused(d, refused, r);
    assert StandIn(d, refused, 0) == Some(1) by {
      NothingStandsIn(d, refused, 0);
    }
    RouteShowsRefusedExactly(d, refused, 1);
  }

  /** What a press of Next makes of a route. */
  ghost predicate Moved(d: Document, refused: set<string>, before: Route, after: Route)
    requires |d.shuffle| == |d.config| && before.active < |d.config|
  {
    exists deal ::
      && IsDeal(deal, RoutePlayable(d, refused, before))
      && after == before.(cursor := Forward(before.cursor, RoutePlayable(d, refused, before), Shuffles(d, before), deal).0)
  }

  /** A route that changed to what its decision names: on the first entry of it
      that can play. */
  ghost predicate Changed(d: Document, refused: set<string>, before: Route, after: Route)
    requires Proper(d) && before.wanted < |d.config|
  {
    var shown := Shown(d, refused, before.wanted);
    && after == before.(active := shown, cursor := after.cursor)
    && exists rest ::
         var playable := RoutePlayable(d, refused, after);
         && IsRest(rest, |playable|, FirstPlayable(playable))
         && after.cursor == Built(|playable|, FirstPlayable(playable), Shuffles(d, after), rest)
  }

  /** Where a step leaves a route: where it was, off refused entries; else at the
      next entry that can play; else, once none can, at what its decision
      names, on the first entry that can play; or where it was, if that is the
      same playlist. */
  ghost predicate SteppedOver(d: Document, refused: set<string>, before: Route, after: Route)
    requires Proper(d) && RouteSound(d, refused, before)
  {
    if !RestsRefused(d, refused, before) then after == before
    else if !IsSpent(d, refused, before.active) || before.active == Shown(d, refused, before.wanted)
    then Moved(d, refused, before, after)
    else exists changed: Route ::
      && Changed(d, refused, before, changed) && changed.active < |d.config|
      && (after == changed || (RestsRefused(d, refused, changed) && Moved(d, refused, changed, after)))
  }

  lemma ChangedFrom(d: Document, refused: set<string>, before: Route, between: Route, after: Route)
    requires Proper(d) && before.wanted < |d.config|
    requires between == before.(cursor := between.cursor) && Changed(d, refused, between, after)
    ensures Changed(d, refused, before, after) && after.active < |d.config|
  {
  }

  lemma MovedKeeps(d: Document, refused: set<string>, before: Route, after: Route)
    requires |d.shuffle| == |d.config| && before.active < |d.config| && Moved(d, refused, before, after)
    ensures after == before.(cursor := after.cursor)
  {
  }

  /** The driver was asked along the entries a route's cursor comes to, unless a
      taboo one is up. */
  ghost predicate RouteAsked(d: Document, refused: set<string>, cleared: set<Question>, r: Route, dynamics: bool) {
    Proper(d) && r.active < |d.config| &&
    var t, holder := RouteTarget(d, refused, r), Holder(d, r.active);
    t.Some? && KeyOf(d, holder, RouteEntries(d, r)[t.value]) !in d.taboo ==>
      AskedAlong(d, refused, cleared, holder, Visiting(r.cursor), dynamics, true)
  }

  ghost predicate AllRoutesAsked(d: Document, refused: set<string>, cleared: set<Question>, routes: seq<Route>, motion: nat -> bool) {
    forall i :: 0 <= i < |routes| ==> RouteAsked(d, refused, cleared, routes[i], motion(i))
  }

  lemma RouteIsAsked(d: Document, refused: set<string>, cleared: set<Question>, r: Route, dynamics: bool)
    requires Proper(d) && r.active < |d.config|
    ensures RouteAsked(d, refused, cleared, r, dynamics) <==>
      var t, holder := RouteTarget(d, refused, r), Holder(d, r.active);
      t.Some? && KeyOf(d, holder, RouteEntries(d, r)[t.value]) !in d.taboo ==>
        AskedAlong(d, refused, cleared, holder, Visiting(r.cursor), dynamics, true)
  {
  }

  lemma RoutesAskedStill(
    d: Document, refused: set<string>, cleared: set<Question>, more: set<Question>, routes: seq<Route>, motion: nat -> bool, n: nat
  )
    requires n <= |routes| && cleared <= more
    ensures forall i :: 0 <= i < n && RouteAsked(d, refused, cleared, routes[i], motion(i)) ==>
      RouteAsked(d, refused, more, routes[i], motion(i))
  {
    hide AskedAlong, RouteTarget, Visiting, Valid;
    forall i | 0 <= i < n && RouteAsked(d, refused, cleared, routes[i], motion(i))
      ensures RouteAsked(d, refused, more, routes[i], motion(i))
    {
      var holder := Holder(d, routes[i].active);
      if AskedAlong(d, refused, cleared, holder, Visiting(routes[i].cursor), motion(i), true) {
        AskedAlongStill(d, refused, cleared, more, holder, Visiting(routes[i].cursor), motion(i), true);
      }
    }
  }

  /** The walk of the displays' routes, beside what both modes share. */
  class Routing {
    const walk: Walk
    var routes: seq<Route>

    ghost predicate Ready()
      reads this, walk
    {
      walk.Ready() && RoutesSound(walk.d, walk.refused, routes)
    }

    constructor (walk: Walk, routes: seq<Route>)
      requires walk.Ready() && RoutesSound(walk.d, walk.refused, routes)
      ensures Ready() && this.walk == walk && this.routes == routes
    {
      this.walk, this.routes := walk, routes;
    }

    /** Follow what the route's decision names now; true when that changes it. */
    method RefreshDecision(i: nat) returns (changed: bool)
      requires Ready() && i < |routes|
      modifies this`routes, walk.rng
      ensures Ready() && |routes| == |old(routes)| && forall j :: 0 <= j < |routes| && j != i ==> routes[j] == old(routes)[j]
      ensures !changed ==> routes == old(routes) && routes[i].active == Shown(walk.d, walk.refused, routes[i].wanted)
      ensures changed ==>
        && old(routes)[i].active != Shown(walk.d, walk.refused, routes[i].wanted)
        && routes[i].wanted == old(routes)[i].wanted
        && routes[i].active == Shown(walk.d, walk.refused, routes[i].wanted)
        && (RestsRefused(walk.d, walk.refused, routes[i]) ==> IsSpent(walk.d, walk.refused, routes[i].active))
        && Changed(walk.d, walk.refused, old(routes)[i], routes[i])
    {
      hide AllSound, Items, AskedOnce, Sound, StandIn, RestsRefused, FirstPlayable, IsSpent, Holder;
      var wanted := Shown(walk.d, walk.refused, routes[i].wanted);
      if wanted == routes[i].active {
        return false;
      }
      var playable := RoutePlayable(walk.d, walk.refused, routes[i].(active := wanted));
      var current := FirstPlayable(playable);
      IdentityHasAll(|playable|);
      WithoutKeepsOnce(Identity(|playable|), current);
      var rest := Dealing(Without(Identity(|playable|), current), walk.rng);
      var shuffle := Shuffles(walk.d, routes[i].(active := wanted));
      var r := routes[i].(active := wanted, cursor := Built(|playable|, current, shuffle, rest));
      ChangedRoute(walk.d, walk.refused, r, rest);
      assert IsRest(rest, |playable|, current);
      assert Changed(walk.d, walk.refused, routes[i], r);
      routes := routes[i := r];
      changed := true;
    }

    method MoveForward(i: nat) returns (moved: bool)
      requires Ready() && i < |routes| && RestsRefused(walk.d, walk.refused, routes[i])
      modifies this`routes, walk.rng
      ensures Ready() && |routes| == |old(routes)| && forall j :: 0 <= j < |routes| && j != i ==> routes[j] == old(routes)[j]
      ensures routes[i].wanted == old(routes)[i].wanted && routes[i].active == old(routes)[i].active
      ensures routes[i].shuffle == old(routes)[i].shuffle && Moved(walk.d, walk.refused, old(routes)[i], routes[i])
      ensures moved <==> !RestsRefused(walk.d, walk.refused, routes[i])
      ensures moved <==> !IsSpent(walk.d, walk.refused, routes[i].active)
    {
      hide AllSound, Items, AskedOnce, Sound, Forward, Holder;
      var r := routes[i];
      var playable := RoutePlayable(walk.d, walk.refused, r);
      var deal := Dealing(Playables(playable, |playable|), walk.rng);
      RouteMoves(walk.d, walk.refused, r, deal);
      var after := Forward(r.cursor, playable, Shuffles(walk.d, r), deal);
      assert Moved(walk.d, walk.refused, r, r.(cursor := after.0));
      routes := routes[i := r.(cursor := after.0)];
      moved := after.1;
    }

    /** Move a route off a refused entry: to the next that can play, else to
        what stands in. It stays on one exactly where nothing it plays can play
        and its decision names that again. */
    method StepOver(i: nat)
      requires Ready() && i < |routes|
      modifies this`routes, walk.rng
      ensures Ready() && |routes| == |old(routes)| && forall j :: 0 <= j < |routes| && j != i ==> routes[j] == old(routes)[j]
      ensures RouteSettled(walk.d, walk.refused, routes[i])
      ensures OwnIds(walk.d.config) ==> RouteFine(walk.d, walk.refused, routes[i])
      ensures !RestsRefused(walk.d, walk.refused, old(routes)[i]) ==> routes == old(routes)
      ensures Stuck(walk.d, walk.refused, old(routes)[i]) ==> Stuck(walk.d, walk.refused, routes[i])
      ensures SteppedOver(walk.d, walk.refused, old(routes)[i], routes[i])
    {
      hide AllSound, Items, AskedOnce, RoutesSound, IsSpent, StandIn, RestsRefused, RouteFine, OwnIds, Shown, RouteSettled, Stuck,
        Moved, Changed;
      ghost var first := routes[i];
      OneSound(walk.d, walk.refused, routes, i);
      StuckIs(walk.d, walk.refused, first);
      for n := 0 to 3
        invariant Ready() && |routes| == |old(routes)| && forall j :: 0 <= j < |routes| && j != i ==> routes[j] == old(routes)[j]
        invariant n == 0 ==> routes == old(routes)
        invariant n > 0 ==>
          && RouteSettled(walk.d, walk.refused, routes[i]) && RestsRefused(walk.d, walk.refused, first)
          && !Stuck(walk.d, walk.refused, first)
          && n == 1 && IsSpent(walk.d, walk.refused, first.active) && first.active != Shown(walk.d, walk.refused, first.wanted)
          && routes[i].wanted < |walk.d.config|
          && routes[i].active == Shown(walk.d, walk.refused, routes[i].wanted)
          && Changed(walk.d, walk.refused, first, routes[i])
      {
        OneSound(walk.d, walk.refused, routes, i);
        Settle(walk.d, walk.refused, routes[i]);
        if !RestsRefused(walk.d, walk.refused, routes[i]) {
          break;
        }
        ghost var before := routes[i];
        var moved := MoveForward(i);
        MovedKeeps(walk.d, walk.refused, before, routes[i]);
        ghost var between := routes[i];
        OneSound(walk.d, walk.refused, routes, i);
        StuckIs(walk.d, walk.refused, routes[i]);
        Settle(walk.d, walk.refused, routes[i]);
        if moved {
          break;
        }
        var changed := RefreshDecision(i);
        OneSound(walk.d, walk.refused, routes, i);
        Settle(walk.d, walk.refused, routes[i]);
        if !changed {
          break;
        }
        ChangedFrom(walk.d, walk.refused, before, between, routes[i]);
      }
      if OwnIds(walk.d.config) {
        SettledIsFine(walk.d, walk.refused, routes[i]);
      }
    }

    /** Ask ahead for each route's target; those chosen before any answer. */
    method AskEach() returns (learned: bool)
      requires Ready()
      modifies walk`refused, walk`cleared, walk`questions, walk`asks
      ensures Ready() && old(walk.refused) <= walk.refused && (learned <==> walk.refused != old(walk.refused))
      ensures !learned ==> AllRoutesAsked(walk.d, walk.refused, walk.cleared, routes, walk.motion)
    {
      hide AllSound, Items, AskedOnce, RoutesSound, RouteTarget, Visiting, LeaveToStart, AskedAlong, RouteAsked;
      learned := false;
      var d, known := walk.d, walk.refused;
      for i := 0 to |routes|
        invariant Ready() && walk.d == d && known <= walk.refused && (learned <==> walk.refused != known)
        invariant !learned ==> forall j :: 0 <= j < i ==> RouteAsked(d, walk.refused, walk.cleared, routes[j], walk.motion(j))
      {
        OneSound(d, walk.refused, routes, i);
        RouteIsAsked(d, walk.refused, walk.cleared, routes[i], walk.motion(i));
        var target := RouteTarget(d, known, routes[i]);
        var holder := Holder(d, routes[i].active);
        if target.None? || KeyOf(d, holder, RouteEntries(d, routes[i])[target.value]) in d.taboo {
          continue;
        }
        var visiting := VisitingOrder(routes[i].cursor);
        ghost var before, cleared := walk.refused, walk.cleared;
        var more := walk.AskAhead(holder, visiting, walk.motion(i), true);
        RouteIsAsked(d, walk.refused, walk.cleared, routes[i], walk.motion(i));
        if !more {
          RoutesAskedStill(d, walk.refused, cleared, walk.cleared, routes, walk.motion, i);
        }
        RoutesSoundStill(d, before, walk.refused, routes);
        learned := learned || more;
      }
    }

    /** Before anything is shown, move every route off the entries the driver
        won't start, until an asking teaches nothing more. */
    method SkipRefused()
      requires Ready()
      modifies this`routes, walk`refused, walk`cleared, walk`questions, walk`asks, walk.rng
      ensures Ready() && old(walk.refused) <= walk.refused && |routes| == |old(routes)|
      ensures AllSettled(walk.d, walk.refused, routes)
      ensures OwnIds(walk.d.config) ==> AllFine(walk.d, walk.refused, routes)
      ensures AllRoutesAsked(walk.d, walk.refused, walk.cleared, routes, walk.motion)
    {
      hide AllSound, Items, RoutesSound, RouteSettled, OwnIds, AllFine, AllRoutesAsked;
      walk.cleared, walk.asks := {}, [];
      while true
        invariant Ready() && old(walk.refused) <= walk.refused && |routes| == |old(routes)| && walk.d == old(walk.d)
        decreases Items(walk.d) - walk.refused
      {
        ghost var known := walk.refused;
        for i := 0 to |routes|
          invariant Ready() && |routes| == |old(routes)| && walk.refused == known && walk.d == old(walk.d)
          invariant forall j :: 0 <= j < i ==> RouteSettled(walk.d, walk.refused, routes[j])
        {
          ghost var before := routes;
          StepOver(i);
          OneSound(walk.d, walk.refused, routes, i);
          assert forall j :: 0 <= j < i ==> routes[j] == before[j];
        }
        var learned := AskEach();
        if !learned {
          if OwnIds(walk.d.config) {
            AllSettledAreFine(walk.d, walk.refused, routes);
          }
          return;
        }
        SomethingLearned(walk.d, known, walk.refused);
      }
    }

    /** Remember what the driver refused at the start itself. */
    method LearnAfterApply() returns (learned: bool)
      requires Ready()
      modifies walk`refused
      ensures Ready() && old(walk.refused) <= walk.refused && (learned <==> walk.refused != old(walk.refused))
      ensures !learned ==> forall i :: 0 <= i < |routes| ==> RouteStarted(i)
    {
      hide AllSound, Items, AskedOnce, RoutesSound, RouteTarget;
      learned := false;
      var d, known := walk.d, walk.refused;
      for i := 0 to |routes|
        invariant Ready() && walk.d == d && known <= walk.refused && (learned <==> walk.refused != known)
        invariant !learned ==> forall j :: 0 <= j < i ==> RouteStarted(j)
      {
        OneSound(d, walk.refused, routes, i);
        var target := RouteTarget(d, known, routes[i]);
        if target.Some? && walk.refusedAt(walk.applies, i) {
          ghost var before := walk.refused;
          var more := walk.Remember(Holder(d, routes[i].active), target.value);
          RoutesSoundStill(d, before, walk.refused, routes);
          learned := learned || more;
        }
      }
    }

    /** The display's last start wasn't refused, but of an entry known to be. */
    ghost predicate RouteStarted(i: nat)
      reads this, walk
    {
      i < |routes| && Proper(walk.d) && routes[i].active < |walk.d.config|
      && var t := RouteTarget(walk.d, walk.refused, routes[i]);
         t.Some? && walk.refusedAt(walk.applies, i) ==>
           var e := RouteEntries(walk.d, routes[i])[t.value];
           ItemOf(e).None? || IsRefused(e, walk.refused)
    }

    /** Show what the routes decide: it ends, whatever the driver answers, with
        every route settled, so no display on an entry known to be refused
        where ids are their own; and at the last start none was refused but of
        an entry already known to be, or without an item. */
    method Apply()
      requires Ready()
      modifies this`routes, walk`refused, walk`cleared, walk`questions, walk`asks, walk`applies, walk.rng
      ensures Ready() && old(walk.refused) <= walk.refused && |routes| == |old(routes)|
      ensures AllSettled(walk.d, walk.refused, routes)
      ensures OwnIds(walk.d.config) ==> AllFine(walk.d, walk.refused, routes)
      ensures forall i :: 0 <= i < |routes| ==> RouteStarted(i)
    {
      hide AllSound, Items, RoutesSound, AllFine, AllSettled, OwnIds;
      SkipRefused();
      walk.applies := walk.applies + 1;
      ghost var known := walk.refused;
      var learned := LearnAfterApply();
      while learned
        invariant Ready() && old(walk.refused) <= known <= walk.refused && |routes| == |old(routes)| && walk.d == old(walk.d)
        invariant learned <==> walk.refused != known
        invariant !learned ==> AllSettled(walk.d, walk.refused, routes)
        invariant !learned && OwnIds(walk.d.config) ==> AllFine(walk.d, walk.refused, routes)
        invariant !learned ==> forall i :: 0 <= i < |routes| ==> RouteStarted(i)
        decreases Items(walk.d) - known
      {
        SomethingLearned(walk.d, known, walk.refused);
        SkipRefused();
        walk.applies := walk.applies + 1;
        known := walk.refused;
        learned := LearnAfterApply();
      }
    }
  }

  ghost predicate AllFine(d: Document, refused: set<string>, routes: seq<Route>) {
    Proper(d) && forall i :: 0 <= i < |routes| ==> routes[i].active < |d.config| && RouteFine(d, refused, routes[i])
  }

  lemma OneSound(d: Document, refused: set<string>, routes: seq<Route>, i: nat)
    requires RoutesSound(d, refused, routes) && i < |routes|
    ensures RouteSound(d, refused, routes[i])
  {
  }

  /** It rests on a refused entry, and no step can leave it. */
  ghost predicate Stuck(d: Document, refused: set<string>, r: Route) {
    && Proper(d) && r.wanted < |d.config| && r.active < |d.config|
    && RestsRefused(d, refused, r) && IsSpent(d, refused, r.active) && r.active == Shown(d, refused, r.wanted)
  }

  lemma StuckIs(d: Document, refused: set<string>, r: Route)
    requires Proper(d) && r.wanted < |d.config| && r.active < |d.config|
    ensures Stuck(d, refused, r) <==>
      RestsRefused(d, refused, r) && IsSpent(d, refused, r.active) && r.active == Shown(d, refused, r.wanted)
  {
  }

  lemma Settle(d: Document, refused: set<string>, r: Route)
    requires Proper(d) && r.wanted < |d.config| && r.active < |d.config|
    ensures RouteSettled(d, refused, r) <==>
      (RestsRefused(d, refused, r) ==> IsSpent(d, refused, r.active) && r.active == Shown(d, refused, r.wanted))
  {
  }
}
