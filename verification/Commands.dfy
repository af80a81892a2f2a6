/** Clients' commands in mirrored mode, and the automatic change that may wait
    between attempts when one comes. */
module Commands {
  import opened Common
  import opened Documents
  import opened Names
  import opened Cursors
  import opened Refusals
  import opened RefusalWalk

  /** What a request names: `playlist-use`, `shuffle` and so on. */
  datatype Verb =
    | PlaylistUse | ShuffleSwitch | CycleSwitch | Reload | ScheduleFollow
    | Play | Pause | Toggle | Stop | Next | Previous | Random | Quit
    | Other(name: string)

  datatype Request = Request(verb: Verb, argument: Option<string>)

  datatype Playback = Playing | Paused | Stopped

  /** What a person can change of what is shown: the pick, the playlist and rule
      in force, and the cursors. */
  datatype Choice = Choice(manual: Option<nat>, active: nat, rule: Option<nat>, cursors: seq<Cursor>)

  datatype Selection = Selection(active: nat, rule: Option<nat>, cursors: seq<Cursor>)

  /** What an automatic change tries, what a failed try may put back, and at
      which step the two were captured. */
  datatype Held = Held(baseline: Selection, candidate: Selection, restoreBaseline: bool, since: nat)

  /** The mirrored runtime: `displays` is what each output is assigned, or the
      default, where the document assigns any. */
  datatype Mirrored = Mirrored(
    d: Document, refused: set<string>, assigns: bool, displays: seq<nat>,
    choice: Choice, playback: Playback, failed: bool, released: bool,
    shuffle: Option<bool>, cycle: Option<bool>, quit: bool, pending: Option<Held>)

  /** What the world answers while a request is handled: what the schedule says,
      whether cursors could start and drivers did, and the cursors that moves
      and applies leave. */
  datatype World = World(
    scheduled: Option<(nat, Option<nat>)>, starts: bool, ok: bool, cursors: seq<Cursor>, reloaded: Option<Choice>)

  ghost predicate Fits(s: Mirrored, w: World) {
    && Proper(s.d) && |s.choice.cursors| == |s.d.config| && s.choice.active < |s.d.config|
    && (forall i :: 0 <= i < |s.displays| ==> s.displays[i] < |s.d.config|)
    && (w.scheduled.Some? ==> w.scheduled.value.0 < |s.d.config|)
  }

  // ---- What requests ask ----

  function Lower(s: string): string {
    seq(|s|, i requires 0 <= i < |s| => if 'A' <= s[i] <= 'Z' then s[i] - 'A' + 'a' else s[i])
  }

  /** `on`, `off` or the document's; None for anything else. */
  function Switch(argument: Option<string>): Option<Option<bool>> {
    if argument.None? then None
    else
      var value := Lower(Trim(argument.value));
      if value in ["on", "true", "1"] then Some(Some(true))
      else if value in ["off", "false", "0"] then Some(Some(false))
      else if value in ["default", "config", "follow"] then Some(None)
      else None
  }

  function Picked(d: Document, argument: Option<string>): (r: Option<nat>)
    ensures r.Some? ==> r.value < |d.config|
  {
    if argument.None? || Trim(argument.value) == "" then None else PlaceOf(d.config, Trim(argument.value))
  }

  predicate HasUsable(d: Document, p: nat)
    requires p < |d.config|
  {
    exists i :: 0 <= i < |Entries(d, p)| && KeyOf(d, p, Entries(d, p)[i]) !in d.taboo
  }

  /** Something in the playlist a reference finds can play, or it plays nothing
      on purpose. */
  predicate Selectable(d: Document, refused: set<string>, p: nat)
    requires Proper(d) && p < |d.config|
  {
    HasUsable(d, p) || PlaysNothing(d, refused, p)
  }

  function WantedBy(s: Mirrored): Wanted {
    if !s.assigns then Everywhere(s.choice.active, 1)
    else if s.choice.manual.Some? || s.choice.rule.Some? then Everywhere(s.choice.active, |s.displays|)
    else Each(s.displays)
  }

  predicate ShowsTaboo(s: Mirrored, w: World)
    requires Fits(s, w)
  {
    exists display :: 0 <= display < Displays(WantedBy(s)) && TabooOn(s, w, display)
  }

  predicate TabooOn(s: Mirrored, w: World, display: nat)
    requires Fits(s, w)
  {
    display < Displays(WantedBy(s)) &&
    var t := TargetOf(s.d, s.refused, s.choice.cursors, WantedBy(s), display);
    t.Some? && KeyOf(s.d, t.value.playlist, EntryShown(s.d, t.value)) in s.d.taboo
  }

  /** The playlists a return to the schedule would put in force: what the
      schedule names, or, by their ids, what the displays are assigned. */
  function ScheduledPlaylists(s: Mirrored, w: World): (r: seq<nat>)
    requires Fits(s, w) && w.scheduled.Some?
    ensures forall i :: 0 <= i < |r| ==> r[i] < |s.d.config|
  {
    if w.scheduled.value.1.Some? || !s.assigns then [w.scheduled.value.0]
    else seq(|s.displays|, i requires 0 <= i < |s.displays| => Holder(s.d, s.displays[i]))
  }

  predicate AllSelectable(s: Mirrored, playlists: seq<nat>)
    requires Proper(s.d) && forall i :: 0 <= i < |playlists| ==> playlists[i] < |s.d.config|
  {
    forall i :: 0 <= i < |playlists| ==> Selectable(s.d, s.refused, playlists[i])
  }

  /** Whether a request is a command that cancels a waiting change. */
  predicate Accepted(s: Mirrored, r: Request, w: World)
    requires Fits(s, w)
  {
    if r.verb.PlaylistUse? then
      var p := Picked(s.d, r.argument);
      p.Some? && Selectable(s.d, s.refused, Holder(s.d, p.value))
    else if r.verb.ShuffleSwitch? || r.verb.CycleSwitch? then Switch(r.argument).Some?
    else if r.verb.ScheduleFollow? then
      r.argument.None? && w.scheduled.Some? && ScheduledPlaylists(s, w) != [] && AllSelectable(s, ScheduledPlaylists(s, w))
    else if r.verb.Play? then r.argument.None? && !ShowsTaboo(s, w)
    else r.argument.None? && !r.verb.Reload? && !r.verb.Other?
  }

  // ---- What they do ----

  function Cancelled(s: Mirrored, r: Request, w: World): Mirrored
    requires Fits(s, w)
  {
    if Accepted(s, r, w) then s.(pending := None) else s
  }

  function Played(s: Mirrored, w: World): Mirrored
    requires Fits(s, w)
  {
    if ShowsTaboo(s, w) then s
    else
      var applies := s.playback == Stopped || (s.failed && s.playback == Playing)
                     || (s.playback == Paused && (s.failed || s.released));
      var after := if applies then s.(choice := s.choice.(cursors := w.cursors)) else s;
      if w.ok then after.(playback := Playing) else after
  }

  function Pausing(s: Mirrored, w: World): Mirrored {
    if s.playback == Stopped || !w.ok then s else s.(playback := Paused)
  }

  function Handled(s: Mirrored, r: Request, w: World): Mirrored
    requires Fits(s, w)
  {
    var cursors := s.choice.(cursors := w.cursors);
    if r.verb.PlaylistUse? then
      var p := Picked(s.d, r.argument);
      if p.None? || !Selectable(s.d, s.refused, Holder(s.d, p.value)) then s
      else if !w.starts && !PlaysNothing(s.d, s.refused, Holder(s.d, p.value)) then s
      else s.(choice := Choice(p, Holder(s.d, p.value), None, w.cursors))
    else if r.verb.ShuffleSwitch? then
      if Switch(r.argument).None? then s else s.(shuffle := Switch(r.argument).value, choice := cursors)
    else if r.verb.CycleSwitch? then
      if Switch(r.argument).None? then s else s.(cycle := Switch(r.argument).value)
    else if r.verb.Reload? then
      if r.argument.Some? || w.reloaded.None? then s else s.(choice := w.reloaded.value, pending := None)
    else if r.argument.Some? then s
    else if r.verb.ScheduleFollow? then
      if w.scheduled.None? || !AllSelectable(s, ScheduledPlaylists(s, w)) || !w.starts then s
      else s.(choice := Choice(None, w.scheduled.value.0, w.scheduled.value.1, w.cursors))
    else if r.verb.Play? then Played(s, w)
    else if r.verb.Pause? then Pausing(s, w)
    else if r.verb.Toggle? then if s.playback == Playing then Pausing(s, w) else Played(s, w)
    else if r.verb.Stop? then s.(playback := Stopped)
    else if r.verb.Next? || r.verb.Previous? || r.verb.Random? then s.(choice := cursors)
    else if r.verb.Quit? then s.(quit := true)
    else s
  }

  /** Every request that changes the choice is accepted by the test that cancels
      a waiting change, but a reload, which cancels it itself. */
  lemma ChangesAreAccepted(s: Mirrored, r: Request, w: World)
    requires Fits(s, w) && (s.assigns ==> s.displays != [])
    requires Handled(s, r, w).choice != s.choice
    ensures Accepted(s, r, w) || (r.verb.Reload? && Handled(s, r, w).pending == None)
  {
    hide Selectable, ShowsTaboo, Switch, Picked, StandIn;
  }

  /** A waiting change outlives a command that changes the choice only where
      displays are assigned playlists and none is there: a return to the
      schedule with no rule in force then changes the pick, unaccepted. */
  lemma OnlyWithoutDisplays(s: Mirrored, r: Request, w: World)
    requires Fits(s, w) && !r.verb.Reload?
    ensures Handled(s, r, w).choice != s.choice && !Accepted(s, r, w) <==>
      && s.assigns && s.displays == []
      && r == Request(ScheduleFollow, None) && w.scheduled.Some? && w.scheduled.value.1.None? && w.starts
      && s.choice != Choice(None, w.scheduled.value.0, None, w.cursors)
  {
    hide Selectable, ShowsTaboo, Switch, Picked, StandIn;
  }

  // ---- What is accepted ----

  /** Nothing that isn't a command is accepted, nor a command with an argument it
      has no use for or without one it needs, nor one that has nothing to
      play. */
  lemma OnlyCommandsAreAccepted(s: Mirrored, r: Request, w: World)
    requires Fits(s, w) && Accepted(s, r, w)
    ensures !r.verb.Reload? && !r.verb.Other?
    ensures r.argument.Some? <==> r.verb.PlaylistUse? || r.verb.ShuffleSwitch? || r.verb.CycleSwitch?
    ensures r.verb.PlaylistUse? ==>
      Picked(s.d, r.argument).Some? && Selectable(s.d, s.refused, Holder(s.d, Picked(s.d, r.argument).value))
    ensures r.verb.ShuffleSwitch? || r.verb.CycleSwitch? ==> Switch(r.argument).Some?
    ensures r.verb.ScheduleFollow? ==> w.scheduled.Some? && AllSelectable(s, ScheduledPlaylists(s, w))
    ensures r.verb.Play? ==> !ShowsTaboo(s, w)
  {
    hide Fits, ShowsTaboo, Selectable, PlaysNothing, AllSelectable, StandIn, ScheduledPlaylists, Holder;
  }

  /** What isn't accepted changes nothing, but for a reload, and a return to the
      schedule that finds no playlist to put in force. */
  lemma NotAcceptedChangesNothing(s: Mirrored, r: Request, w: World)
    requires Fits(s, w) && !Accepted(s, r, w) && !r.verb.Reload?
    requires !(r.verb.ScheduleFollow? && w.scheduled.Some? && ScheduledPlaylists(s, w) == [])
    ensures Handled(s, r, w) == s
  {
    hide Fits, ShowsTaboo, Switch, Selectable, Picked, PlaysNothing, StandIn, ScheduledPlaylists, Holder, Pausing;
  }

  // ---- What each request does ----

  /** A switch says on, off or the document's in any case and with any space
      around; anything else is no switch. */
  lemma SwitchIs(value: string)
    ensures var word := Lower(Trim(value)); var wanted := Switch(Some(value));
      && (wanted == Some(Some(true)) <==> word == "on" || word == "true" || word == "1")
      && (wanted == Some(Some(false)) <==> word == "off" || word == "false" || word == "0")
      && (wanted == Some(None) <==> word == "default" || word == "config" || word == "follow")
      && Switch(None) == None
  {
    hide Lower, Trim;
    var word := Lower(Trim(value));
    assert (word == "on" || word == "true" || word == "1") ==> word !in ["off", "false", "0"] && word !in ["default", "config", "follow"];
  }

  lemma LowerIs(s: string, i: nat)
    requires i < |s|
    ensures |Lower(s)| == |s| && !('A' <= Lower(s)[i] <= 'Z')
    ensures Lower(s)[i] != s[i] ==> 'A' <= s[i] <= 'Z' && Lower(s)[i] - 'a' == s[i] - 'A'
  {
  }

  /** Playback begins with a `play`, or a `toggle` while it isn't playing, that no
      taboo entry stands in the way of; pauses with a `pause` or a `toggle`
      while it plays, never from a stop; and stops with a `stop`. A driver's
      failure changes neither playing nor pause. */
  lemma PlaybackIs(s: Mirrored, r: Request, w: World)
    requires Fits(s, w)
    ensures var after := Handled(s, r, w).playback;
      && (after != s.playback && after == Playing <==>
            && s.playback != Playing && r.argument.None? && (r.verb.Play? || r.verb.Toggle?)
            && !ShowsTaboo(s, w) && w.ok)
      && (after != s.playback && after == Paused <==>
            s.playback == Playing && r.argument.None? && (r.verb.Pause? || r.verb.Toggle?) && w.ok)
      && (after != s.playback && after == Stopped <==> s.playback != Stopped && r == Request(Stop, None))
  {
    hide Fits, ShowsTaboo, Switch, Selectable, Picked, PlaysNothing, AllSelectable, StandIn, ScheduledPlaylists, Holder, Played, Pausing;
    PlayedPlays(s, w);
    PausingPauses(s, w);
  }

  lemma PlayedPlays(s: Mirrored, w: World)
    requires Fits(s, w)
    ensures Played(s, w).playback == if !ShowsTaboo(s, w) && w.ok then Playing else s.playback
  {
    hide Fits, ShowsTaboo;
  }

  lemma PausingPauses(s: Mirrored, w: World)
    ensures Pausing(s, w).playback == if s.playback != Stopped && w.ok then Paused else s.playback
  {
  }

  /** A `play` applies again exactly from a stop, after a failure, or where a pause
      let go of the displays. */
  lemma PlayApplies(s: Mirrored, r: Request, w: World)
    requires Fits(s, w) && r == Request(Play, None) && !ShowsTaboo(s, w)
    ensures Handled(s, r, w).choice ==
      if s.playback == Stopped || s.failed || (s.playback == Paused && s.released)
      then s.choice.(cursors := w.cursors) else s.choice
  {
    hide ShowsTaboo;
  }

  /** Shuffling and cycling are switched by their own requests, and only by
      those. */
  lemma ShuffleIs(s: Mirrored, r: Request, w: World)
    requires Fits(s, w)
    ensures Handled(s, r, w).shuffle ==
      if r.verb.ShuffleSwitch? && Switch(r.argument).Some? then Switch(r.argument).value else s.shuffle
  {
    hide Fits, ShowsTaboo, Switch, Selectable, Picked, PlaysNothing, AllSelectable, StandIn, ScheduledPlaylists, Holder, Played, Pausing;
    PlayedOrPaused(s, w);
  }

  lemma CycleIs(s: Mirrored, r: Request, w: World)
    requires Fits(s, w)
    ensures Handled(s, r, w).cycle == if r.verb.CycleSwitch? && Switch(r.argument).Some? then Switch(r.argument).value else s.cycle
  {
    hide Fits, ShowsTaboo, Switch, Selectable, Picked, PlaysNothing, AllSelectable, StandIn, ScheduledPlaylists, Holder, Played, Pausing;
    PlayedOrPaused(s, w);
  }

  /** Only `quit` ends the service. */
  lemma QuitIs(s: Mirrored, r: Request, w: World)
    requires Fits(s, w)
    ensures Handled(s, r, w).quit <==> s.quit || r == Request(Quit, None)
  {
    hide Fits, ShowsTaboo, Switch, Selectable, Picked, PlaysNothing, AllSelectable, StandIn, ScheduledPlaylists, Holder, Played, Pausing;
    PlayedOrPaused(s, w);
  }

  lemma PlayedOrPaused(s: Mirrored, w: World)
    requires Fits(s, w)
    ensures var played := Played(s, w);
      played == s.(playback := played.playback, choice := s.choice.(cursors := played.choice.cursors))
    ensures Played(s, w).choice.cursors == s.choice.cursors || Played(s, w).choice.cursors == w.cursors
    ensures Pausing(s, w) == s.(playback := Pausing(s, w).playback)
  {
    hide Fits, ShowsTaboo;
  }

  /** A pick is taken by a `playlist-use` of a playlist there is, that can play
      and starts, or plays nothing on purpose. What is in force then is what
      was picked. */
  lemma PickTaken(s: Mirrored, r: Request, w: World)
    requires Fits(s, w) && r.verb.PlaylistUse?
    ensures var after, p := Handled(s, r, w), Picked(s.d, r.argument);
      if p.Some? && Selectable(s.d, s.refused, Holder(s.d, p.value)) && (w.starts || PlaysNothing(s.d, s.refused, Holder(s.d, p.value)))
      then after.choice.manual == p && after.choice.active == Holder(s.d, p.value) && after.choice.rule == None
      else after == s
  {
    hide Fits, ShowsTaboo, Switch, Selectable, Picked, PlaysNothing, AllSelectable, StandIn, ScheduledPlaylists, Holder, Played, Pausing;
  }

  /** It is given up by a return to the schedule that can play and starts. What is
      in force then is what was scheduled. */
  lemma PickGivenUp(s: Mirrored, r: Request, w: World)
    requires Fits(s, w) && r == Request(ScheduleFollow, None)
    ensures var after := Handled(s, r, w);
      if w.scheduled.Some? && AllSelectable(s, ScheduledPlaylists(s, w)) && w.starts
      then after.choice.manual == None && Some((after.choice.active, after.choice.rule)) == w.scheduled
      else after == s
  {
    hide Fits, ShowsTaboo, Switch, Selectable, Picked, PlaysNothing, AllSelectable, StandIn, ScheduledPlaylists, Holder, Played, Pausing;
  }

  /** No other request but a reload changes the pick, or what is in force. */
  lemma PickStays(s: Mirrored, r: Request, w: World)
    requires Fits(s, w) && !r.verb.PlaylistUse? && !r.verb.ScheduleFollow? && !r.verb.Reload?
    ensures var after := Handled(s, r, w).choice;
      && after == s.choice.(cursors := after.cursors)
      && (after.cursors == s.choice.cursors || after.cursors == w.cursors)
  {
    hide Fits, ShowsTaboo, Switch, Selectable, Picked, PlaysNothing, AllSelectable, StandIn, ScheduledPlaylists, Holder, Played, Pausing;
    PlayedOrPaused(s, w);
  }

  // ---- The runtime ----

  class Runtime {
    var state: Mirrored

    constructor (state: Mirrored)
      ensures this.state == state
    {
      this.state := state;
    }

    /** A command cancels a waiting change before it is handled; input that
        isn't one cancels nothing. */
    method Handle(r: Request, w: World)
      requires Fits(state, w)
      modifies this
      ensures state == Handled(Cancelled(old(state), r, w), r, w)
    {
      hide Accepted, Selectable, ShowsTaboo, Switch, Picked, StandIn, Played, Pausing;
      if Accepted(state, r, w) {
        state := state.(pending := None);
      }
      if r.verb.PlaylistUse? {
        UsePlaylist(r.argument, w);
      } else if r.verb.ShuffleSwitch? {
        var wanted := Switch(r.argument);
        if wanted.Some? {
          state := state.(shuffle := wanted.value, choice := state.choice.(cursors := w.cursors));
        }
      } else if r.verb.CycleSwitch? {
        var wanted := Switch(r.argument);
        if wanted.Some? {
          state := state.(cycle := wanted.value);
        }
      } else if r.verb.Reload? {
        if r.argument.None? && w.reloaded.Some? {
          state := state.(choice := w.reloaded.value, pending := None);
        }
      } else if r.argument.Some? {
        return;
      } else if r.verb.ScheduleFollow? {
        FollowSchedule(w);
      } else if r.verb.Play? || (r.verb.Toggle? && state.playback != Playing) {
        state := Played(state, w);
      } else if r.verb.Pause? || r.verb.Toggle? {
        state := Pausing(state, w);
      } else if r.verb.Stop? {
        state := state.(playback := Stopped);
      } else if r.verb.Next? || r.verb.Previous? || r.verb.Random? {
        state := state.(choice := state.choice.(cursors := w.cursors));
      } else if r.verb.Quit? {
        state := state.(quit := true);
      }
    }

    method UsePlaylist(argument: Option<string>, w: World)
      requires Fits(state, w)
      modifies this
      ensures state == Handled(old(state), Request(PlaylistUse, argument), w)
    {
      hide Selectable, Picked, StandIn, Holder;
      var p := Picked(state.d, argument);
      if p.None? || !Selectable(state.d, state.refused, Holder(state.d, p.value)) {
        return;
      }
      var baseline := state.choice;
      state := state.(choice := Choice(p, Holder(state.d, p.value), None, w.cursors));
      if !w.starts && !PlaysNothing(state.d, state.refused, Holder(state.d, p.value)) {
        state := state.(choice := baseline);
      }
    }

    method FollowSchedule(w: World)
      requires Fits(state, w)
      modifies this
      ensures state == Handled(old(state), Request(ScheduleFollow, None), w)
    {
      hide Selectable, StandIn;
      if w.scheduled.None? || !AllSelectable(state, ScheduledPlaylists(state, w)) {
        return;
      }
      var baseline := state.choice;
      state := state.(choice := Choice(None, w.scheduled.value.0, w.scheduled.value.1, w.cursors));
      if !w.starts {
        state := state.(choice := baseline);
      }
    }
  }

  // ---- Every run ----

  /** What a tick makes of a waiting change, or starts: an attempt installs the
      candidate and, where it fails, the baseline if that is to be restored; the
      applies move cursors. A failed change waits again, or without a baseline
      is captured anew. */
  datatype Step =
    | Command(request: Request, world: World)
    | Capture(candidate: Selection, restoreBaseline: bool)
    | Attempt(failed: bool, cursors: seq<Cursor>, waits: bool, anew: bool)
    | Elsewhere(active: nat, rule: Option<nat>, cursors: seq<Cursor>, displays: seq<nat>)

  /** The runtime after some steps, at which step it is, and at which a command
      last changed the choice. */
  datatype Past = Past(state: Mirrored, step: nat, changedAt: nat)

  function SelectedNow(s: Mirrored): Selection {
    Selection(s.choice.active, s.choice.rule, s.choice.cursors)
  }

  ghost predicate CanTake(p: Past, step: Step) {
    match step
    case Command(_, w) => Fits(p.state, w) && (p.state.assigns ==> p.state.displays != [])
    case Capture(_, _) => p.state.pending.None?
    case Attempt(_, _, _, _) => p.state.pending.Some?
    case Elsewhere(_, _, _, _) => true
  }

  function Taken(p: Past, step: Step): Past
    requires CanTake(p, step)
  {
    var s := p.state;
    match step
    case Command(r, w) =>
      var after := Handled(Cancelled(s, r, w), r, w);
      Past(after, p.step + 1, if after.choice != s.choice then p.step else p.changedAt)
    case Capture(candidate, restoreBaseline) =>
      Past(s.(pending := Some(Held(SelectedNow(s), candidate, restoreBaseline, p.step))), p.step + 1, p.changedAt)
    case Attempt(failed, cursors, waits, anew) =>
      var held := s.pending.value;
      var installed := if failed && held.restoreBaseline then held.baseline else held.candidate;
      var after := s.(choice := Choice(s.choice.manual, installed.active, installed.rule, cursors));
      var next :=
        if failed && waits then Some(held)
        else if failed && anew && !held.restoreBaseline
        then Some(Held(SelectedNow(after), SelectedNow(after), false, p.step))
        else None;
      Past(after.(pending := next), p.step + 1, p.changedAt)
    case Elsewhere(active, rule, cursors, displays) =>
      Past(s.(choice := Choice(s.choice.manual, active, rule, cursors), displays := displays), p.step + 1, p.changedAt)
  }

  /** What waits was captured after the last command that changed the choice. */
  ghost predicate Current(p: Past) {
    && p.changedAt <= p.step
    && (p.state.pending.Some? ==> p.state.pending.value.since < p.step && p.changedAt < p.state.pending.value.since)
  }

  ghost predicate Run(pasts: seq<Past>, steps: seq<Step>) {
    && |pasts| == |steps| + 1
    && forall i :: 0 <= i < |steps| ==> CanTake(pasts[i], steps[i]) && pasts[i + 1] == Taken(pasts[i], steps[i])
  }

  lemma StepIsCurrent(p: Past, step: Step)
    requires Current(p) && p.changedAt < p.step && CanTake(p, step)
    ensures Current(Taken(p, step)) && Taken(p, step).changedAt < Taken(p, step).step
  {
    hide Accepted, Handled, Fits;
    if step.Command? {
      CommandIsCurrent(p.state, step.request, step.world);
    }
  }

  lemma CommandIsCurrent(s: Mirrored, r: Request, w: World)
    requires Fits(s, w) && (s.assigns ==> s.displays != [])
    ensures var after := Handled(Cancelled(s, r, w), r, w);
      && (after.choice != s.choice ==> after.pending == None)
      && (after.pending == None || after.pending == s.pending)
  {
    hide Accepted, Handled, Fits;
    PendingIsOnlyDropped(s, r, w);
    if Accepted(s, r, w) {
      PendingIsOnlyDropped(s.(pending := None), r, w);
    } else if Handled(s, r, w).choice != s.choice {
      ChangesAreAccepted(s, r, w);
    }
  }

  lemma PendingIsOnlyDropped(s: Mirrored, r: Request, w: World)
    requires Fits(s, w)
    ensures Fits(s.(pending := None), w)
    ensures Handled(s, r, w).pending == None || Handled(s, r, w).pending == s.pending
  {
    hide Selectable, ShowsTaboo, Switch, Picked, StandIn, Valid, PlaysNothing, AllSelectable, Holder, ScheduledPlaylists;
  }

  /** What waits kept, as its baseline, what was in force when it was captured. */
  ghost predicate KeepsWhatWas(pasts: seq<Past>, p: Past) {
    p.state.pending.Some? ==>
      var held := p.state.pending.value;
      && |pasts| > 0 && pasts[0].step <= held.since && held.since - pasts[0].step + 1 < |pasts|
      && held.baseline == SelectedNow(pasts[held.since - pasts[0].step + 1].state)
  }

  /** Over every run: no attempt installs a candidate, or puts back a baseline,
      captured before a command that changed the pick, the playlist in force or
      a cursor; and the baseline is what was in force at the capture. */
  lemma {:induction false} AttemptsReinstallNothingOlder(pasts: seq<Past>, steps: seq<Step>)
    requires Run(pasts, steps) && pasts[0].state.pending.None? && pasts[0].changedAt < pasts[0].step
    ensures Current(pasts[|steps|]) && pasts[|steps|].changedAt < pasts[|steps|].step
    ensures pasts[|steps|].step == pasts[0].step + |steps|
    ensures KeepsWhatWas(pasts, pasts[|steps|])
    decreases |steps|
  {
    hide Taken, CanTake;
    if steps != [] {
      var last := |steps| - 1;
      var before := pasts[..last + 1];
      assert Run(before, steps[..last]);
      AttemptsReinstallNothingOlder(before, steps[..last]);
      StepIsCurrent(pasts[last], steps[last]);
      StepKeeps(pasts[last], steps[last]);
      assert pasts[last] == before[last];
    }
  }

  /** A step that captures takes what is in force after it; any other keeps what
      was captured, or drops it. */
  lemma StepKeeps(p: Past, step: Step)
    requires CanTake(p, step)
    ensures var after := Taken(p, step);
      && after.step == p.step + 1
      && (after.state.pending.Some? ==>
            || after.state.pending == p.state.pending
            || (after.state.pending.value.since == p.step && after.state.pending.value.baseline == SelectedNow(after.state)))
  {
    hide Accepted, Handled, Fits;
    if step.Command? {
      PendingIsOnlyDropped(p.state, step.request, step.world);
      PendingIsOnlyDropped(p.state.(pending := None), step.request, step.world);
    }
  }

  /** An attempt leaves in force what it tried; a failed one that keeps a baseline
      leaves that, and waits, or is over. */
  lemma AttemptLeaves(p: Past, failed: bool, cursors: seq<Cursor>, waits: bool, anew: bool)
    requires CanTake(p, Attempt(failed, cursors, waits, anew))
    ensures var held, after := p.state.pending.value, Taken(p, Attempt(failed, cursors, waits, anew)).state;
      && after.choice.manual == p.state.choice.manual
      && (failed && held.restoreBaseline ==>
            after.choice.active == held.baseline.active && after.choice.rule == held.baseline.rule
            && (after.pending.Some? ==> after.pending == Some(held)))
      && (!failed ==>
            after.choice.active == held.candidate.active && after.choice.rule == held.candidate.rule && after.pending.None?)
      && (!held.restoreBaseline ==> after.choice.active == held.candidate.active && after.choice.rule == held.candidate.rule)
  {
  }
}
