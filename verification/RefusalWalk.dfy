/** Past the entries the driver won't start, before anything is shown and once
    it is: mirrored displays. */
module RefusalWalk {
  import opened Common
  import opened Documents
  import opened Shuffling
  import opened Cursors
  import opened CursorRuns
  import opened Refusals

  /** What the displays ask for: all of them one playlist, a pick's or a
      rule's, or each its own. */
  datatype Wanted = Everywhere(playlist: nat, displays: nat) | Each(playlists: seq<nat>)

  datatype Target = Target(display: nat, playlist: nat, index: nat)

  /** A question to the driver: an item, and whether motion was asked for. */
  type Question = (string, bool)

  ghost predicate Asks(d: Document, w: Wanted) {
    match w
    case Everywhere(p, _) => p < |d.config|
    case Each(playlists) => forall i :: 0 <= i < |playlists| ==> playlists[i] < |d.config|
  }

  function Displays(w: Wanted): nat {
    match w
    case Everywhere(_, displays) => displays
    case Each(playlists) => |playlists|
  }

  function WantedOn(w: Wanted, display: nat): nat
    requires display < Displays(w)
  {
    match w
    case Everywhere(p, _) => p
    case Each(playlists) => playlists[display]
  }

  /** What a display shows, if anything: the playlist shown, and the entry its
      id's playlist rests on. */
  function TargetOf(d: Document, refused: set<string>, cursors: seq<Cursor>, w: Wanted, display: nat): (r: Option<Target>)
    requires Proper(d) && |cursors| == |d.config| && Asks(d, w) && display < Displays(w)
    ensures r.Some? ==> r.value.display == display && r.value.playlist < |d.config|
                        && StandIn(d, refused, WantedOn(w, display)) == Some(r.value.playlist)
                        && r.value.index < |Entries(d, Holder(d, r.value.playlist))|
                        && Current(cursors[Holder(d, r.value.playlist)]) == Some(r.value.index)
  {
    var shown := StandIn(d, refused, WantedOn(w, display));
    if shown.None? then None
    else
      var holder := Holder(d, shown.value);
      var current := Current(cursors[holder]);
      if current.None? || current.value >= |Entries(d, holder)| then None
      else Some(Target(display, shown.value, current.value))
  }

  /** What a display shows is of the first that helps: what it asks for, then the
      default, then All media. */
  lemma TargetIsOfTheFirst(d: Document, refused: set<string>, cursors: seq<Cursor>, w: Wanted, display: nat)
    requires Proper(d) && |cursors| == |d.config| && Asks(d, w) && display < Displays(w)
    requires TargetOf(d, refused, cursors, w, display).Some?
    ensures var p, shown := WantedOn(w, display), TargetOf(d, refused, cursors, w, display).value.playlist;
      if !RefusedThroughout(d, refused, p) then shown == p
      else if !NoHelp(d, refused, p, Some(d.default)) then shown == d.default
      else !NoHelp(d, refused, p, d.allMedia) && Some(shown) == d.allMedia
  {
    hide RefusedThroughout, NoHelp, StandIn;
    StandInIs(d, refused, WantedOn(w, display));
  }

  /** The entry a target puts up. */
  function EntryShown(d: Document, t: Target): Entry
    requires t.playlist < |d.config| && t.index < |Entries(d, Holder(d, t.playlist))|
  {
    Entries(d, Holder(d, t.playlist))[t.index]
  }

  function DistinctShown(d: Document, refused: set<string>, playlists: seq<nat>): (r: seq<nat>)
    requires Proper(d) && forall i :: 0 <= i < |playlists| ==> playlists[i] < |d.config|
    ensures forall p :: p in r ==> p < |d.config|
  {
    if playlists == [] then []
    else
      var last := |playlists| - 1;
      var rest, shown := DistinctShown(d, refused, playlists[..last]), Shown(d, refused, Holder(d, playlists[last]));
      if shown in rest then rest else rest + [shown]
  }

  lemma {:induction false} DistinctShownIs(d: Document, refused: set<string>, playlists: seq<nat>, p: nat)
    requires Proper(d) && forall i :: 0 <= i < |playlists| ==> playlists[i] < |d.config|
    ensures NoRepeats(DistinctShown(d, refused, playlists))
    ensures p in DistinctShown(d, refused, playlists) <==>
      exists i :: 0 <= i < |playlists| && Shown(d, refused, Holder(d, playlists[i])) == p
    decreases |playlists|
  {
    hide StandIn, Shown, Holder;
    if playlists != [] {
      var last := |playlists| - 1;
      DistinctShownIs(d, refused, playlists[..last], p);
      assert forall i :: 0 <= i < last ==> playlists[..last][i] == playlists[i];
    }
  }

  /** The playlists in force, each once. */
  function Effective(d: Document, refused: set<string>, w: Wanted): (r: seq<nat>)
    requires Proper(d) && Asks(d, w)
    ensures forall p :: p in r ==> p < |d.config|
  {
    match w
    case Everywhere(p, _) => [Shown(d, refused, p)]
    case Each(playlists) => DistinctShown(d, refused, playlists)
  }

  lemma TargetsAreEffective(d: Document, refused: set<string>, cursors: seq<Cursor>, w: Wanted, display: nat)
    requires Proper(d) && |cursors| == |d.config| && Asks(d, w) && display < Displays(w)
    requires TargetOf(d, refused, cursors, w, display).Some?
    requires w.Everywhere? || Holder(d, WantedOn(w, display)) == WantedOn(w, display)
    ensures TargetOf(d, refused, cursors, w, display).value.playlist in Effective(d, refused, w)
  {
    hide StandIn, DistinctShown, Holder;
    var p := WantedOn(w, display);
    assert Shown(d, refused, p) == StandIn(d, refused, p).value;
    if w.Each? {
      DistinctShownIs(d, refused, w.playlists, Shown(d, refused, p));
    }
  }

  /** No display shows an entry the driver refused. */
  ghost predicate NoneRefused(d: Document, refused: set<string>, cursors: seq<Cursor>, w: Wanted)
    requires Proper(d) && |cursors| == |d.config| && Asks(d, w)
  {
    forall display :: 0 <= display < Displays(w) ==>
      var t := TargetOf(d, refused, cursors, w, display);
      t.Some? ==> !IsRefused(EntryShown(d, t.value), refused)
  }

  ghost predicate AllSound(d: Document, refused: set<string>, cursors: seq<Cursor>)
    requires |d.shuffle| == |d.config|
  {
    && |cursors| == |d.config|
    && forall p :: 0 <= p < |cursors| ==> Sound(cursors[p], PlayableOf(d, refused, p), d.shuffle[p])
  }

  lemma AllSoundStill(d: Document, refused: set<string>, more: set<string>, cursors: seq<Cursor>)
    requires |d.shuffle| == |d.config| && AllSound(d, refused, cursors) && refused <= more
    ensures AllSound(d, more, cursors)
  {
    hide Sound;
    forall p | 0 <= p < |cursors|
      ensures Sound(cursors[p], PlayableOf(d, more, p), d.shuffle[p])
    {
      SoundWithFewer(PlayableOf(d, refused, p), PlayableOf(d, more, p), cursors[p], d.shuffle[p]);
    }
  }

  /** The entry a cursor rests on is refused. */
  predicate RestsOnRefused(d: Document, refused: set<string>, cursors: seq<Cursor>, p: nat)
    requires p < |d.config| == |cursors|
  {
    var current := Current(cursors[p]);
    current.Some? && current.value < |Entries(d, p)| && IsRefused(Entries(d, p)[current.value], refused)
  }

  predicate RestsOnTaboo(d: Document, c: Cursor, p: nat)
    requires p < |d.config|
  {
    var current := Current(c);
    current.Some? && current.value < |Entries(d, p)| && KeyOf(d, p, Entries(d, p)[current.value]) in d.taboo
  }

  /** No cursor has come to rest on a taboo entry. */
  ghost predicate NoNewTaboo(d: Document, before: seq<Cursor>, after: seq<Cursor>) {
    && |before| == |after| == |d.config|
    && forall p :: 0 <= p < |after| ==> Current(after[p]) == Current(before[p]) || !RestsOnTaboo(d, after[p], p)
  }

  lemma NoNewTabooYet(d: Document, cursors: seq<Cursor>)
    requires |cursors| == |d.config|
    ensures NoNewTaboo(d, cursors, cursors)
  {
  }

  lemma NoNewTabooThen(d: Document, before: seq<Cursor>, between: seq<Cursor>, after: seq<Cursor>)
    requires NoNewTaboo(d, before, between) && NoNewTaboo(d, between, after)
    ensures NoNewTaboo(d, before, after)
  {
  }

  /** No cursor was moved but such as rested on a refused entry. */
  ghost predicate OnlyRefusedMoved(d: Document, refused: set<string>, before: seq<Cursor>, after: seq<Cursor>) {
    && |before| == |after| == |d.config|
    && forall p :: 0 <= p < |after| ==> RestsOnRefused(d, refused, before, p) || after[p] == before[p]
  }

  lemma OnlyRefusedMovedYet(d: Document, refused: set<string>, cursors: seq<Cursor>)
    requires |cursors| == |d.config|
    ensures OnlyRefusedMoved(d, refused, cursors, cursors)
  {
    hide RestsOnRefused;
  }

  lemma OnlyRefusedMovedThen(
    d: Document, refused: set<string>, more: set<string>, before: seq<Cursor>, between: seq<Cursor>, after: seq<Cursor>
  )
    requires refused <= more && OnlyRefusedMoved(d, refused, before, between) && OnlyRefusedMoved(d, more, between, after)
    ensures OnlyRefusedMoved(d, more, before, after)
  {
  }

  lemma OnlyRefusedMovedStill(d: Document, refused: set<string>, more: set<string>, before: seq<Cursor>, after: seq<Cursor>)
    requires refused <= more && OnlyRefusedMoved(d, refused, before, after)
    ensures OnlyRefusedMoved(d, more, before, after)
  {
  }

  lemma OneMoreRefusedMoved(
    d: Document, refused: set<string>, before: seq<Cursor>, were: seq<Cursor>, after: seq<Cursor>, h: nat
  )
    requires OnlyRefusedMoved(d, refused, before, were) && |were| == |after|
    requires h < |after| && RestsOnRefused(d, refused, before, h)
    requires forall q :: 0 <= q < |after| && q != h ==> after[q] == were[q]
    ensures OnlyRefusedMoved(d, refused, before, after)
  {
    hide RestsOnRefused;
  }

  /** Next moves a cursor off a refused entry, unless its playlist is refused
      throughout, and then it stays. */
  lemma MoveIsSound(d: Document, refused: set<string>, cursors: seq<Cursor>, p: nat, deal: seq<nat>)
    requires |d.shuffle| == |d.config| && AllSound(d, refused, cursors) && p < |cursors|
    requires IsDeal(deal, PlayableOf(d, refused, p))
    ensures var (next, moved) := Forward(cursors[p], PlayableOf(d, refused, p), d.shuffle[p], deal);
      var after := cursors[p := next];
      && AllSound(d, refused, after) && NoNewTaboo(d, cursors, after)
      && (moved <==> Current(next) != Current(cursors[p]))
      && (RestsOnRefused(d, refused, after, p) <==> RestsOnRefused(d, refused, cursors, p) && RefusedThroughout(d, refused, p))
  {
    hide Sound, Forward, RefusedThroughout;
    var playable, c := PlayableOf(d, refused, p), cursors[p];
    ForwardIsSound(c, playable, d.shuffle[p], deal);
    if RefusedThroughout(d, refused, p) {
      NothingPlays(d, refused, p);
    } else if RestsOnRefused(d, refused, cursors, p) {
      SomethingPlays(d, refused, p, Current(c).value);
      ForwardMoves(c, playable, d.shuffle[p], deal);
    }
  }

  lemma NothingPlays(d: Document, refused: set<string>, p: nat)
    requires p < |d.config| && RefusedThroughout(d, refused, p)
    ensures forall i: nat :: !CanPlay(PlayableOf(d, refused, p), i)
  {
  }

  lemma ForwardMoves(c: Cursor, playable: Playable, shuffle: bool, deal: seq<nat>)
    requires Sound(c, playable, shuffle) && IsDeal(deal, playable)
    requires Current(c).Some? && !CanPlay(playable, Current(c).value) && HasAnother(playable, Current(c))
    ensures Forward(c, playable, shuffle, deal).1
  {
    hide Onward, HasAnother;
    var unwound := Newest(c.forward, playable, None);
    if unwound.None? {
      OnwardIsSound(c.(forward := []), playable, shuffle, deal);
    }
  }

  /** What an asking ahead came past can't play, or is no scene. */
  ghost predicate PassedOver(d: Document, refused: set<string>, p: nat, visiting: seq<nat>, n: nat)
    requires p < |d.config|
  {
    var entries := Entries(d, Holder(d, p));
    && n <= |visiting|
    && forall k :: 0 <= k < n ==>
         visiting[k] < |entries| && (CantPlay(d, refused, p, entries[visiting[k]]) || ItemOf(entries[visiting[k]]).None?)
  }

  /** Where it stops: at the end, at no entry, at a taboo one that is up and
      stays, or at one that can play and has leave to start or is no scene. */
  ghost predicate StopsAt(
    d: Document, refused: set<string>, cleared: set<Question>, p: nat, visiting: seq<nat>, dynamics: bool, tabooStays: bool, n: nat
  )
    requires p < |d.config|
  {
    var entries := Entries(d, Holder(d, p));
    n >= |visiting| || visiting[n] >= |entries|
    || (var e := entries[visiting[n]];
        || (n == 0 && tabooStays && KeyOf(d, p, e) in d.taboo)
        || (!CantPlay(d, refused, p, e) && (ItemOf(e).None? || (ItemOf(e).value, dynamics) in cleared)))
  }

  lemma NonePassed(d: Document, refused: set<string>, p: nat, visiting: seq<nat>)
    requires p < |d.config|
    ensures PassedOver(d, refused, p, visiting, 0)
  {
  }

  lemma OnePassed(d: Document, refused: set<string>, p: nat, visiting: seq<nat>, n: nat)
    requires p < |d.config| && PassedOver(d, refused, p, visiting, n) && n < |visiting|
    requires visiting[n] < |Entries(d, Holder(d, p))|
    ensures var e := Entries(d, Holder(d, p))[visiting[n]];
      CantPlay(d, refused, p, e) || ItemOf(e).None? ==> PassedOver(d, refused, p, visiting, n + 1)
  {
    hide CantPlay, Holder;
  }

  lemma PassedStill(d: Document, refused: set<string>, more: set<string>, p: nat, visiting: seq<nat>, n: nat)
    requires p < |d.config| && PassedOver(d, refused, p, visiting, n) && refused <= more
    ensures PassedOver(d, more, p, visiting, n)
  {
    hide Holder;
  }

  lemma StopsIf(
    d: Document, refused: set<string>, cleared: set<Question>, p: nat, visiting: seq<nat>, dynamics: bool, tabooStays: bool, n: nat
  )
    requires p < |d.config|
    ensures n >= |visiting| || visiting[n] >= |Entries(d, Holder(d, p))| ==>
      StopsAt(d, refused, cleared, p, visiting, dynamics, tabooStays, n)
    ensures n < |visiting| && visiting[n] < |Entries(d, Holder(d, p))| ==>
      var e := Entries(d, Holder(d, p))[visiting[n]];
      (StopsAt(d, refused, cleared, p, visiting, dynamics, tabooStays, n) <==>
        || (n == 0 && tabooStays && KeyOf(d, p, e) in d.taboo)
        || (!CantPlay(d, refused, p, e) && (ItemOf(e).None? || (ItemOf(e).value, dynamics) in cleared)))
  {
  }

  ghost predicate AskedAlong(
    d: Document, refused: set<string>, cleared: set<Question>, p: nat, visiting: seq<nat>, dynamics: bool, tabooStays: bool
  )
    requires p < |d.config|
  {
    exists n: nat ::
      PassedOver(d, refused, p, visiting, n) && StopsAt(d, refused, cleared, p, visiting, dynamics, tabooStays, n)
  }

  lemma AskedAlongStill(
    d: Document, refused: set<string>, cleared: set<Question>, more: set<Question>, p: nat, visiting: seq<nat>, dynamics: bool,
    tabooStays: bool
  )
    requires p < |d.config| && cleared <= more && AskedAlong(d, refused, cleared, p, visiting, dynamics, tabooStays)
    ensures AskedAlong(d, refused, more, p, visiting, dynamics, tabooStays)
  {
    hide PassedOver;
    var n: nat :|
      PassedOver(d, refused, p, visiting, n) && StopsAt(d, refused, cleared, p, visiting, dynamics, tabooStays, n);
    assert StopsAt(d, refused, more, p, visiting, dynamics, tabooStays, n);
  }

  /** Each question asked was answered by a refusal, now known, or a leave to
      start; and none was asked twice. */
  ghost predicate AskedOnce(asks: seq<Question>, refused: set<string>, cleared: set<Question>) {
    && (forall q :: q in asks ==> q.0 in refused || q in cleared)
    && (forall i, j :: 0 <= i < j < |asks| ==> asks[i] != asks[j])
  }

  lemma AskOnce(asks: seq<Question>, refused: set<string>, cleared: set<Question>, q: Question)
    requires AskedOnce(asks, refused, cleared) && q.0 !in refused && q !in cleared
    ensures AskedOnce(asks + [q], refused + {q.0}, cleared)
    ensures AskedOnce(asks + [q], refused, cleared + {q})
  {
  }

  /** The walk's own state, and the driver: `refuses(n)` is its n-th answer,
      `refusedAt(n, display)` whether the display's start was refused at the
      n-th apply. */
  class Walk {
    var d: Document
    const refuses: nat -> bool
    const refusedAt: (nat, nat) -> bool
    const motion: nat -> bool
    const rng: XorShift64
    var cursors: seq<Cursor>
    var refused: set<string>
    var cleared: set<Question>
    var questions: nat
    var applies: nat
    ghost var asks: seq<Question>

    ghost predicate Ready()
      reads this
    {
      && Proper(d) && |cursors| == |d.config| && AllSound(d, refused, cursors)
      && refused <= Items(d) && AskedOnce(asks, refused, cleared)
    }

    constructor (d: Document, refuses: nat -> bool, refusedAt: (nat, nat) -> bool, motion: nat -> bool,
                 rng: XorShift64, cursors: seq<Cursor>, refused: set<string>)
      requires Proper(d) && |cursors| == |d.config| && AllSound(d, refused, cursors) && refused <= Items(d)
      ensures Ready() && this.d == d && this.refused == refused && this.cursors == cursors && this.rng == rng && asks == []
    {
      this.d, this.refuses, this.refusedAt, this.motion, this.rng := d, refuses, refusedAt, motion, rng;
      this.cursors, this.refused := cursors, refused;
      cleared, questions, applies, asks := {}, 0, 0, [];
    }

    /** Ask the driver along `visiting`, up to the first entry it would start. */
    method AskAhead(p: nat, visiting: seq<nat>, dynamics: bool, tabooStays: bool) returns (learned: bool)
      requires Ready() && p < |d.config|
      modifies this`refused, this`cleared, this`questions, this`asks
      ensures Ready() && old(refused) <= refused && old(cleared) <= cleared
      ensures learned <==> refused != old(refused)
      ensures (forall n :: !refuses(n)) ==> !learned
      ensures !learned ==> LeaveToStart(d, refused, cleared, p, visiting, dynamics)
      ensures AskedAlong(d, refused, cleared, p, visiting, dynamics, tabooStays)
    {
      hide AllSound, Items, AskedOnce, Holder, Valid, PassedOver, StopsAt;
      learned := false;
      NonePassed(d, refused, p, visiting);
      var holder := Holder(d, p);
      ghost var stop := |visiting|;
      for step := 0 to |visiting|
        invariant Ready() && old(refused) <= refused && old(cleared) <= cleared
        invariant learned <==> refused != old(refused)
        invariant (forall n :: !refuses(n)) ==> !learned
        invariant !learned && step > 0 ==> LeaveToStart(d, refused, cleared, p, visiting, dynamics)
        invariant stop == |visiting| && PassedOver(d, refused, p, visiting, step)
      {
        var index := visiting[step];
        if index >= |Entries(d, holder)| {
          stop := step;
          break;
        }
        var entry := Entries(d, holder)[index];
        OnePassed(d, refused, p, visiting, step);
        if KeyOf(d, p, entry) in d.taboo {
          if step == 0 && tabooStays {
            stop := step;
            break;
          }
          continue;
        }
        if IsRefused(entry, refused) {
          continue;
        }
        var item := ItemOf(entry);
        if item.Some? && (item.value, dynamics) in cleared {
          stop := step;
          break;
        }
        var answer := refuses(questions);
        questions := questions + 1;
        if item.Some? {
          var q := (item.value, dynamics);
          AskOnce(asks, refused, cleared, q);
          asks := asks + [q];
          ItemIsItem(d, holder, index);
          if answer {
            AllSoundStill(d, refused, refused + {item.value}, cursors);
            PassedStill(d, refused, refused + {item.value}, p, visiting, step);
            OnePassed(d, refused + {item.value}, p, visiting, step);
            refused := refused + {item.value};
            learned := true;
          } else {
            cleared := cleared + {q};
            stop := step;
            break;
          }
        } else if !answer {
          stop := step;
          break;
        }
      }
      StopsIf(d, refused, cleared, p, visiting, dynamics, tabooStays, stop);
      assert PassedOver(d, refused, p, visiting, stop) && StopsAt(d, refused, cleared, p, visiting, dynamics, tabooStays, stop);
    }

    /** Next, of one playlist. */
    method Move(p: nat) returns (moved: bool)
      requires Ready() && p < |d.config|
      modifies this`cursors, rng
      ensures Ready() && NoNewTaboo(d, old(cursors), cursors)
      ensures |cursors| == |old(cursors)| && forall q :: 0 <= q < |cursors| && q != p ==> cursors[q] == old(cursors)[q]
      ensures exists deal ::
        && IsDeal(deal, PlayableOf(d, refused, p))
        && (cursors[p], moved) == Forward(old(cursors)[p], PlayableOf(d, refused, p), d.shuffle[p], deal)
      ensures moved <==> Current(cursors[p]) != Current(old(cursors)[p])
      ensures RestsOnRefused(d, refused, cursors, p) <==>
        RestsOnRefused(d, refused, old(cursors), p) && RefusedThroughout(d, refused, p)
    {
      hide AllSound, Items, AskedOnce, Forward, NoNewTaboo, RestsOnRefused, RefusedThroughout;
      var playable := PlayableOf(d, refused, p);
      var deal := Dealing(Playables(playable, |playable|), rng);
      MoveIsSound(d, refused, cursors, p, deal);
      var after := Forward(cursors[p], playable, d.shuffle[p], deal);
      cursors := cursors[p := after.0];
      moved := after.1;
    }

    /** The playlists of some whose entry is refused, but for those stepped
        already. */
    method ToMove(effective: seq<nat>, stepped: set<nat>) returns (moving: seq<nat>)
      requires Ready() && forall p :: p in effective ==> p < |d.config|
      ensures forall p :: p in moving ==> p in effective && p !in stepped && RestsOnRefused(d, refused, cursors, Holder(d, p))
      ensures forall p :: p in effective ==> p in stepped || p in moving || !RestsOnRefused(d, refused, cursors, Holder(d, p))
    {
      hide AllSound, Items, AskedOnce, RestsOnRefused, Holder;
      moving := [];
      for k := 0 to |effective|
        invariant forall p :: p in moving ==> p in effective && p !in stepped && RestsOnRefused(d, refused, cursors, Holder(d, p))
        invariant forall i :: 0 <= i < k ==>
          effective[i] in effective
          && (effective[i] in stepped || effective[i] in moving
              || !RestsOnRefused(d, refused, cursors, Holder(d, effective[i])))
      {
        var p := effective[k];
        assert p in effective;
        if RestsOnRefused(d, refused, cursors, Holder(d, p)) && p !in stepped && p !in moving {
          moving := moving + [p];
        }
      }
    }

    method MoveEach(moving: seq<nat>)
      requires Ready()
      requires forall p :: p in moving ==> p < |d.config| && RestsOnRefused(d, refused, cursors, Holder(d, p))
      modifies this`cursors, rng
      ensures Ready() && NoNewTaboo(d, old(cursors), cursors) && OnlyRefusedMoved(d, refused, old(cursors), cursors)
      ensures forall h :: 0 <= h < |d.config| ==>
        (Remains(d, refused, old(cursors), cursors, h, moving))
    {
      hide AllSound, Items, AskedOnce, RestsOnRefused, RefusedThroughout, Holder, Remains, OnlyRefusedMoved;
      NothingMoved(d, refused, cursors);
      OnlyRefusedMovedYet(d, refused, cursors);
      for k := 0 to |moving|
        invariant Ready() && NoNewTaboo(d, old(cursors), cursors) && OnlyRefusedMoved(d, refused, old(cursors), cursors)
        invariant forall h :: 0 <= h < |d.config| ==> Remains(d, refused, old(cursors), cursors, h, moving[..k])
      {
        var p := moving[k];
        assert p in moving;
        ghost var were := cursors;
        var _ := Move(Holder(d, p));
        OneMoreRefusedMoved(d, refused, old(cursors), were, cursors, Holder(d, p));
        ghost var next := moving[..k + 1];
        forall h | 0 <= h < |d.config|
          ensures Remains(d, refused, old(cursors), cursors, h, next)
        {
          OneMoreMoved(d, refused, old(cursors), were, cursors, h, moving, k);
        }
      }
      assert moving[..|moving|] == moving;
    }

    /** Move each playlist in force whose entry is refused, once: to its next
        that can play; one that has none gives way to its stand-in. What rests
        on a refused entry then is, exactly, what did and is refused throughout
        or not in force. */
    method StepOver(w: Wanted)
      requires Ready() && Asks(d, w)
      modifies this`cursors, rng
      ensures Ready() && NoNewTaboo(d, old(cursors), cursors) && OnlyRefusedMoved(d, refused, old(cursors), cursors)
      ensures forall h :: 0 <= h < |d.config| ==>
        Remains(d, refused, old(cursors), cursors, h, Effective(d, refused, w))
    {
      hide AllSound, Items, AskedOnce, RefusedThroughout, RestsOnRefused, Effective, StandIn, Holder, Remains, OnlyRefusedMoved;
      OnlyRefusedMovedYet(d, refused, cursors);
      var effective := Effective(d, refused, w);
      var all := set p | p in effective;
      var stepped: set<nat> := {};
      ghost var moved: seq<nat> := [];
      NothingMoved(d, refused, cursors);
      while true
        invariant Ready() && NoNewTaboo(d, old(cursors), cursors) && OnlyRefusedMoved(d, refused, old(cursors), cursors)
        invariant stepped <= all && forall p :: p in moved <==> p in stepped
        invariant forall h :: 0 <= h < |d.config| ==> Remains(d, refused, old(cursors), cursors, h, moved)
        decreases all - stepped
      {
        var moving := ToMove(effective, stepped);
        if moving == [] {
          forall h | 0 <= h < |d.config|
            ensures Remains(d, refused, old(cursors), cursors, h, effective)
          {
            AllMoved(d, refused, old(cursors), cursors, h, moved, effective);
          }
          return;
        }
        assert moving[0] in moving;
        ghost var were, before := cursors, moved;
        MoveEach(moving);
        OnlyRefusedMovedThen(d, refused, refused, old(cursors), were, cursors);
        stepped := stepped + set p | p in moving;
        moved := moved + moving;
        forall h | 0 <= h < |d.config|
          ensures Remains(d, refused, old(cursors), cursors, h, moved)
        {
          MovedThen(d, refused, old(cursors), were, cursors, h, before, moving);
        }
      }
    }

    /** Ask ahead for each display's target; those chosen before any answer. */
    method AskEach(w: Wanted) returns (learned: bool)
      requires Ready() && Asks(d, w)
      modifies this`refused, this`cleared, this`questions, this`asks
      ensures Ready() && old(refused) <= refused && old(cleared) <= cleared
      ensures learned <==> refused != old(refused)
      ensures (forall n :: !refuses(n)) ==> !learned
      ensures !learned ==> HasLeave(d, refused, cleared, cursors, motion, w) && AllAsked(d, refused, cleared, cursors, motion, w)
    {
      hide AllSound, Items, AskedOnce, Visiting, TargetOf, LeaveToStart, DisplayHasLeave, Holder, StandIn, KeyOf, EntryShown,
        AskedAlong, DisplayAsked;
      learned := false;
      var known := refused;
      for display := 0 to Displays(w)
        invariant Ready() && old(refused) <= refused && old(cleared) <= cleared
        invariant learned <==> refused != old(refused)
        invariant (forall n :: !refuses(n)) ==> !learned
        invariant !learned ==> forall k :: 0 <= k < display ==>
          DisplayHasLeave(d, refused, cleared, cursors, motion, w, k) && DisplayAsked(d, refused, cleared, cursors, motion, w, k)
      {
        var target := TargetOf(d, known, cursors, w, display);
        if target.None? || KeyOf(d, target.value.playlist, EntryShown(d, target.value)) in d.taboo {
          if !learned {
            NothingToClear(d, refused, cleared, cursors, motion, w, display);
          }
          continue;
        }
        var p := target.value.playlist;
        var visiting := VisitingOrder(cursors[p]);
        ghost var cleared0 := cleared;
        var more := AskAhead(p, visiting, motion(display), true);
        learned := learned || more;
        if !learned {
          VisitedFirst(d, refused, cleared, cursors, motion, w, display);
          MoreCleared(d, refused, cleared0, cleared, cursors, motion, w, display);
          IsAsked(d, refused, cleared, cursors, motion, w, display);
        }
      }
    }

    /** Before anything is shown, move off every entry the driver won't start,
        until an asking teaches nothing more. */
    method SkipRefused(w: Wanted)
      requires Ready() && Asks(d, w)
      modifies this`refused, this`cleared, this`questions, this`asks, this`cursors, rng
      ensures Ready() && old(refused) <= refused && NoNewTaboo(d, old(cursors), cursors)
      ensures OnlyRefusedMoved(d, refused, old(cursors), cursors)
      ensures Settled(d, refused, cursors, w)
      ensures HasLeave(d, refused, cleared, cursors, motion, w) && AllAsked(d, refused, cleared, cursors, motion, w)
      ensures (forall n :: !refuses(n)) ==> refused == old(refused)
    {
      hide AllSound, Items, HasLeave, AllAsked, Settled, RestsOnTaboo, NoNewTaboo, OnlyRefusedMoved;
      NoNewTabooYet(d, cursors);
      OnlyRefusedMovedYet(d, refused, cursors);
      cleared, asks := {}, [];
      while true
        invariant Ready() && old(refused) <= refused && NoNewTaboo(d, old(cursors), cursors)
        invariant OnlyRefusedMoved(d, refused, old(cursors), cursors)
        invariant (forall n :: !refuses(n)) ==> refused == old(refused)
        decreases Items(d) - refused
      {
        ghost var known, were := refused, cursors;
        StepOver(w);
        NoNewTabooThen(d, old(cursors), were, cursors);
        OnlyRefusedMovedThen(d, refused, refused, old(cursors), were, cursors);
        SteppedIsSettled(d, refused, were, cursors, w);
        var learned := AskEach(w);
        if !learned {
          return;
        }
        SomethingLearned(d, known, refused);
        OnlyRefusedMovedStill(d, known, refused, old(cursors), cursors);
      }
    }

    method Remember(h: nat, index: nat) returns (isNew: bool)
      requires Ready() && h < |d.config| && index < |Entries(d, h)|
      modifies this`refused
      ensures Ready() && old(refused) <= refused && (isNew <==> refused != old(refused))
      ensures !isNew ==> ItemOf(Entries(d, h)[index]).None? || IsRefused(Entries(d, h)[index], refused)
      ensures isNew ==> ItemOf(Entries(d, h)[index]).Some? && refused == old(refused) + {ItemOf(Entries(d, h)[index]).value}
    {
      hide AllSound, Items;
      var item := ItemOf(Entries(d, h)[index]);
      if item.None? || item.value in refused {
        return false;
      }
      ItemIsItem(d, h, index);
      AllSoundStill(d, refused, refused + {item.value}, cursors);
      refused := refused + {item.value};
      isNew := true;
    }

    /** Remember what the driver refused at the start itself. */
    method LearnAfterApply(w: Wanted) returns (learned: bool)
      requires Ready() && Asks(d, w)
      modifies this`refused
      ensures Ready() && old(refused) <= refused && (learned <==> refused != old(refused))
      ensures (forall n, display :: !refusedAt(n, display)) ==> !learned
      ensures !learned ==> AllStarted(w)
    {
      hide AllSound, Items, AskedOnce, TargetOf, StandIn, Holder, Valid, Sound;
      learned := false;
      var known := refused;
      for display := 0 to Displays(w)
        invariant Ready() && old(refused) <= refused && (learned <==> refused != old(refused))
        invariant (forall n, display :: !refusedAt(n, display)) ==> !learned
        invariant !learned ==> forall k :: 0 <= k < display ==> Started(w, k)
      {
        var target := TargetOf(d, known, cursors, w, display);
        if target.Some? && refusedAt(applies, display) {
          var more := Remember(Holder(d, target.value.playlist), target.value.index);
          learned := learned || more;
        }
      }
    }

    /** The display's last start wasn't refused, but of an entry that is known
        to be. */
    ghost predicate Started(w: Wanted, display: nat)
      requires Proper(d) && |cursors| == |d.config| && Asks(d, w) && display < Displays(w)
      reads this
    {
      var t := TargetOf(d, refused, cursors, w, display);
      t.Some? && refusedAt(applies, display) ==>
        var e := EntryShown(d, t.value);
        ItemOf(e).None? || IsRefused(e, refused)
    }

    ghost predicate AllStarted(w: Wanted)
      requires Proper(d) && |cursors| == |d.config| && Asks(d, w)
      reads this
    {
      forall display :: 0 <= display < Displays(w) ==> Started(w, display)
    }

    /** Show what the displays ask for. An item refused at its start is skipped
        the same way, until a start teaches nothing more: it ends, whatever the
        driver answers. Where playlists' ids are their own, no display is then
        on an entry known to be refused, and none was refused at its start. */
    method ApplyCurrent(w: Wanted)
      requires Ready() && Asks(d, w)
      modifies this`refused, this`cleared, this`questions, this`asks, this`cursors, this`applies, rng
      ensures Ready() && old(refused) <= refused && NoNewTaboo(d, old(cursors), cursors)
      ensures OnlyRefusedMoved(d, refused, old(cursors), cursors)
      ensures Settled(d, refused, cursors, w)
      ensures OwnIds(d.config) ==> NoneRefused(d, refused, cursors, w)
      ensures AllStarted(w)
      ensures applies > old(applies)
      ensures (forall n :: !refuses(n)) && (forall n, display :: !refusedAt(n, display)) ==> refused == old(refused)
    {
      hide AllSound, Items, NoneRefused, HasLeave, AllAsked, Settled, RestsOnTaboo, OwnIds, OnlyRefusedMoved;
      SkipRefused(w);
      applies := applies + 1;
      ghost var known := refused;
      var learned := LearnAfterApply(w);
      OnlyRefusedMovedStill(d, known, refused, old(cursors), cursors);
      while learned
        invariant Ready() && old(refused) <= known <= refused
        invariant learned <==> refused != known
        invariant !learned ==> Settled(d, refused, cursors, w) && AllStarted(w)
        invariant applies > old(applies) && NoNewTaboo(d, old(cursors), cursors) && OnlyRefusedMoved(d, refused, old(cursors), cursors)
        invariant (forall n :: !refuses(n)) && (forall n, display :: !refusedAt(n, display)) ==> refused == old(refused)
        decreases Items(d) - known
      {
        SomethingLearned(d, known, refused);
        ghost var were := cursors;
        ghost var before := refused;
        SkipRefused(w);
        NoNewTabooThen(d, old(cursors), were, cursors);
        OnlyRefusedMovedThen(d, before, refused, old(cursors), were, cursors);
        applies := applies + 1;
        known := refused;
        learned := LearnAfterApply(w);
        OnlyRefusedMovedStill(d, known, refused, old(cursors), cursors);
      }
      if OwnIds(d.config) {
        SettledShowsNoneRefused(d, refused, cursors, w);
      }
    }
  }

  /** A display's target that can play and is visited first, a scene, has the
      driver's leave to start. */
  ghost predicate DisplayHasLeave(
    d: Document, refused: set<string>, cleared: set<Question>, cursors: seq<Cursor>, motion: nat -> bool, w: Wanted, display: nat
  )
    requires Proper(d) && |cursors| == |d.config| && Asks(d, w) && display < Displays(w)
  {
    var t := TargetOf(d, refused, cursors, w, display);
    t.Some? && Holder(d, t.value.playlist) == t.value.playlist && t.value.index < |cursors[t.value.playlist].order| ==>
      var e := EntryShown(d, t.value);
      ItemOf(e).Some? && !CantPlay(d, refused, t.value.playlist, e) ==> (ItemOf(e).value, motion(display)) in cleared
  }

  ghost predicate HasLeave(
    d: Document, refused: set<string>, cleared: set<Question>, cursors: seq<Cursor>, motion: nat -> bool, w: Wanted
  )
    requires Proper(d) && |cursors| == |d.config| && Asks(d, w)
  {
    forall k :: 0 <= k < Displays(w) ==> DisplayHasLeave(d, refused, cleared, cursors, motion, w, k)
  }

  /** The driver was asked along the entries a display's playlist comes to,
      unless a taboo one is up. */
  ghost predicate DisplayAsked(
    d: Document, refused: set<string>, cleared: set<Question>, cursors: seq<Cursor>, motion: nat -> bool, w: Wanted, display: nat
  )
    requires Proper(d) && |cursors| == |d.config| && Asks(d, w) && display < Displays(w)
  {
    var t := TargetOf(d, refused, cursors, w, display);
    t.Some? && KeyOf(d, t.value.playlist, EntryShown(d, t.value)) !in d.taboo ==>
      AskedAlong(d, refused, cleared, t.value.playlist, Visiting(cursors[t.value.playlist]), motion(display), true)
  }

  ghost predicate AllAsked(
    d: Document, refused: set<string>, cleared: set<Question>, cursors: seq<Cursor>, motion: nat -> bool, w: Wanted
  )
    requires Proper(d) && |cursors| == |d.config| && Asks(d, w)
  {
    forall k :: 0 <= k < Displays(w) ==> DisplayAsked(d, refused, cleared, cursors, motion, w, k)
  }

  lemma IsAsked(
    d: Document, refused: set<string>, cleared: set<Question>, cursors: seq<Cursor>, motion: nat -> bool, w: Wanted, display: nat
  )
    requires Proper(d) && |cursors| == |d.config| && Asks(d, w) && display < Displays(w)
    requires var t := TargetOf(d, refused, cursors, w, display);
      t.Some? ==> AskedAlong(d, refused, cleared, t.value.playlist, Visiting(cursors[t.value.playlist]), motion(display), true)
    ensures DisplayAsked(d, refused, cleared, cursors, motion, w, display)
  {
    hide TargetOf, AskedAlong, Visiting;
  }

  lemma VisitedFirst(
    d: Document, refused: set<string>, cleared: set<Question>, cursors: seq<Cursor>, motion: nat -> bool, w: Wanted, display: nat
  )
    requires Proper(d) && |cursors| == |d.config| && Asks(d, w) && display < Displays(w) && AllSound(d, refused, cursors)
    requires var t := TargetOf(d, refused, cursors, w, display);
      t.Some? ==> LeaveToStart(d, refused, cleared, t.value.playlist, Visiting(cursors[t.value.playlist]), motion(display))
    ensures DisplayHasLeave(d, refused, cleared, cursors, motion, w, display)
  {
    hide Visiting;
    var t := TargetOf(d, refused, cursors, w, display);
    if t.Some? && Holder(d, t.value.playlist) == t.value.playlist {
      var p := t.value.playlist;
      assert Sound(cursors[p], PlayableOf(d, refused, p), d.shuffle[p]);
      VisitingIs(cursors[p]);
    }
  }

  lemma NothingToClear(
    d: Document, refused: set<string>, cleared: set<Question>, cursors: seq<Cursor>, motion: nat -> bool, w: Wanted, display: nat
  )
    requires Proper(d) && |cursors| == |d.config| && Asks(d, w) && display < Displays(w)
    requires var t := TargetOf(d, refused, cursors, w, display);
      t.Some? ==> KeyOf(d, t.value.playlist, EntryShown(d, t.value)) in d.taboo
    ensures DisplayHasLeave(d, refused, cleared, cursors, motion, w, display)
    ensures DisplayAsked(d, refused, cleared, cursors, motion, w, display)
  {
    hide TargetOf, AskedAlong, Visiting;
  }

  lemma MoreCleared(
    d: Document, refused: set<string>, cleared: set<Question>, more: set<Question>, cursors: seq<Cursor>,
    motion: nat -> bool, w: Wanted, n: nat
  )
    requires Proper(d) && |cursors| == |d.config| && Asks(d, w) && n <= Displays(w) && cleared <= more
    ensures forall k :: 0 <= k < n && DisplayHasLeave(d, refused, cleared, cursors, motion, w, k) ==>
      DisplayHasLeave(d, refused, more, cursors, motion, w, k)
    ensures forall k :: 0 <= k < n && DisplayAsked(d, refused, cleared, cursors, motion, w, k) ==>
      DisplayAsked(d, refused, more, cursors, motion, w, k)
  {
    hide TargetOf, AskedAlong, Visiting;
    forall k | 0 <= k < n && DisplayAsked(d, refused, cleared, cursors, motion, w, k)
      ensures DisplayAsked(d, refused, more, cursors, motion, w, k)
    {
      var t := TargetOf(d, refused, cursors, w, k);
      if t.Some? && KeyOf(d, t.value.playlist, EntryShown(d, t.value)) !in d.taboo {
        AskedAlongStill(d, refused, cleared, more, t.value.playlist, Visiting(cursors[t.value.playlist]), motion(k), true);
      }
    }
  }

  lemma SomethingLearned(d: Document, known: set<string>, refused: set<string>)
    requires known <= refused <= Items(d) && known != refused
    ensures Items(d) - refused < Items(d) - known
  {
    var item :| item in refused && item !in known;
    assert item in Items(d) - known && item !in Items(d) - refused;
  }

  /** A display that asks for a playlist with entries, where what is shown is
      found by its own id, has no target exactly when the playlist asked for is
      refused throughout and nothing stands in. */
  lemma NoTargetOnlyWhenNothingPlays(d: Document, refused: set<string>, cursors: seq<Cursor>, w: Wanted, display: nat)
    requires Proper(d) && |cursors| == |d.config| && AllSound(d, refused, cursors) && Asks(d, w) && display < Displays(w)
    requires var p := WantedOn(w, display);
      Entries(d, p) != [] && FoundByItself(d, Shown(d, refused, p))
    ensures TargetOf(d, refused, cursors, w, display).None? <==>
      var p := WantedOn(w, display);
      RefusedThroughout(d, refused, p) && NoHelp(d, refused, p, Some(d.default)) && NoHelp(d, refused, p, d.allMedia)
  {
    var p := WantedOn(w, display);
    NothingStandsIn(d, refused, p);
    var shown := StandIn(d, refused, p);
    if shown.Some? {
      assert Sound(cursors[shown.value], PlayableOf(d, refused, shown.value), d.shuffle[shown.value]);
    }
  }

  // ---- What a step leaves ----

  predicate FoundByItself(d: Document, p: nat)
    requires p < |d.config|
  {
    Holder(d, p) == p
  }

  /** The id of one of some playlists finds this one. */
  ghost predicate Held(d: Document, playlists: seq<nat>, h: nat) {
    exists p :: p in playlists && p < |d.config| && Holder(d, p) == h
  }

  /** A cursor rests on a refused entry after some playlists moved exactly when
      it did before, and it couldn't move or wasn't to. */
  ghost predicate Remains(
    d: Document, refused: set<string>, before: seq<Cursor>, after: seq<Cursor>, h: nat, moved: seq<nat>
  )
  {
    && h < |d.config| == |before| == |after|
    && (RestsOnRefused(d, refused, after, h) <==>
          RestsOnRefused(d, refused, before, h) && (RefusedThroughout(d, refused, h) || !Held(d, moved, h)))
  }

  /** Every playlist in force has left its refused entry, or has no other. */
  ghost predicate Settled(d: Document, refused: set<string>, cursors: seq<Cursor>, w: Wanted)
    requires Proper(d) && |cursors| == |d.config| && Asks(d, w)
  {
    forall h :: 0 <= h < |d.config| && Held(d, Effective(d, refused, w), h) ==>
      RestsOnRefused(d, refused, cursors, h) ==> RefusedThroughout(d, refused, h)
  }

  lemma NothingMoved(d: Document, refused: set<string>, cursors: seq<Cursor>)
    requires |cursors| == |d.config|
    ensures forall h :: 0 <= h < |d.config| ==> Remains(d, refused, cursors, cursors, h, [])
  {
  }

  lemma OneMoreMoved(
    d: Document, refused: set<string>, before: seq<Cursor>, were: seq<Cursor>, after: seq<Cursor>, h: nat, moving: seq<nat>, k: nat
  )
    requires k < |moving| && moving[k] < |d.config| == |were| == |after|
    requires Remains(d, refused, before, were, h, moving[..k])
    requires var p := Holder(d, moving[k]);
      && (forall q :: 0 <= q < |after| && q != p ==> after[q] == were[q])
      && (RestsOnRefused(d, refused, after, p) <==> RestsOnRefused(d, refused, were, p) && RefusedThroughout(d, refused, p))
    ensures Remains(d, refused, before, after, h, moving[..k + 1])
  {
    hide RefusedThroughout, Holder, IsRefused;
    assert moving[..k + 1] == moving[..k] + [moving[k]];
    assert forall p :: p in moving[..k + 1] <==> p in moving[..k] || p == moving[k];
    assert Held(d, moving[..k + 1], h) <==> Held(d, moving[..k], h) || Holder(d, moving[k]) == h;
  }

  lemma MovedThen(
    d: Document, refused: set<string>, before: seq<Cursor>, were: seq<Cursor>, after: seq<Cursor>, h: nat, first: seq<nat>, second: seq<nat>
  )
    requires Remains(d, refused, before, were, h, first) && Remains(d, refused, were, after, h, second)
    ensures Remains(d, refused, before, after, h, first + second)
  {
    hide RefusedThroughout, Holder, RestsOnRefused;
    assert forall p :: p in first + second <==> p in first || p in second;
    assert Held(d, first + second, h) <==> Held(d, first, h) || Held(d, second, h);
  }

  lemma AllMoved(
    d: Document, refused: set<string>, before: seq<Cursor>, after: seq<Cursor>, h: nat, moved: seq<nat>, effective: seq<nat>
  )
    requires Remains(d, refused, before, after, h, moved) && forall p :: p in moved ==> p in effective
    requires forall p :: p in effective ==> p < |d.config| && (p in moved || !RestsOnRefused(d, refused, after, Holder(d, p)))
    ensures Remains(d, refused, before, after, h, effective)
  {
    hide RefusedThroughout, Holder, RestsOnRefused;
    if Held(d, effective, h) && RestsOnRefused(d, refused, after, h) {
      var p :| p in effective && p < |d.config| && Holder(d, p) == h;
      assert Held(d, moved, h);
    }
  }

  lemma SteppedIsSettled(d: Document, refused: set<string>, before: seq<Cursor>, after: seq<Cursor>, w: Wanted)
    requires Proper(d) && |before| == |after| == |d.config| && Asks(d, w)
    requires forall h :: 0 <= h < |d.config| ==> Remains(d, refused, before, after, h, Effective(d, refused, w))
    ensures Settled(d, refused, after, w)
  {
    hide RefusedThroughout, Holder, RestsOnRefused, Effective, Held;
    forall h | 0 <= h < |d.config| && Held(d, Effective(d, refused, w), h)
      ensures RestsOnRefused(d, refused, after, h) ==> RefusedThroughout(d, refused, h)
    {
      assert Remains(d, refused, before, after, h, Effective(d, refused, w));
    }
  }

  /** A display whose playlist is found by its own id, and is in force by it,
      doesn't show a refused entry once settled. */
  lemma FoundIsNotRefused(d: Document, refused: set<string>, cursors: seq<Cursor>, w: Wanted, display: nat)
    requires Proper(d) && |cursors| == |d.config| && Asks(d, w) && Settled(d, refused, cursors, w) && display < Displays(w)
    requires var t := TargetOf(d, refused, cursors, w, display);
      t.Some? && FoundByItself(d, t.value.playlist) && t.value.playlist in Effective(d, refused, w)
    ensures !IsRefused(EntryShown(d, TargetOf(d, refused, cursors, w, display).value), refused)
  {
    hide RefusedThroughout, Effective, StandIn;
    var t := TargetOf(d, refused, cursors, w, display).value;
    assert Held(d, Effective(d, refused, w), t.playlist);
  }

  /** A cursor just built, resting on `current`. */
  function BuiltFor(d: Document, p: nat, current: nat): Cursor
    requires p < |d.config| == |d.shuffle|
  {
    Built(|Entries(d, p)|, current, d.shuffle[p], Without(Identity(|Entries(d, p)|), current))
  }

  lemma BuiltForIsSound(d: Document, refused: set<string>, p: nat, current: nat)
    requires p < |d.config| == |d.shuffle|
    requires current < |Entries(d, p)| || current == |Entries(d, p)| == 0
    ensures Sound(BuiltFor(d, p, current), PlayableOf(d, refused, p), d.shuffle[p])
    ensures Entries(d, p) != [] ==> Current(BuiltFor(d, p, current)) == Some(current)
  {
    var n := |Entries(d, p)|;
    IdentityHasAll(n);
    WithoutKeepsOnce(Identity(n), current);
    BuiltIsSound(PlayableOf(d, refused, p), current, d.shuffle[p], Without(Identity(n), current));
  }

  /** A settled display may show a refused entry. */
  ghost predicate MayShowRefused(d: Document, refused: set<string>, p: nat)
    requires Proper(d) && p < |d.config|
  {
    exists cursors: seq<Cursor> ::
      && |cursors| == |d.config| && AllSound(d, refused, cursors)
      && Settled(d, refused, cursors, Everywhere(p, 1)) && !NoneRefused(d, refused, cursors, Everywhere(p, 1))
  }

  /** A settled walk leaves a refused entry up exactly where something is shown
      whose id finds a playlist that is refused throughout: so never where it
      finds the playlist shown, which isn't. */
  lemma RefusedIsShownExactly(d: Document, refused: set<string>, p: nat)
    requires Proper(d) && p < |d.config|
    ensures MayShowRefused(d, refused, p) <==>
      var shown := StandIn(d, refused, p);
      shown.Some? && RefusedThroughout(d, refused, Holder(d, shown.value))
    ensures FoundByItself(d, Shown(d, refused, p)) ==> !MayShowRefused(d, refused, p)
  {
    hide RefusedThroughout, StandIn, Holder, Sound;
    var w := Everywhere(p, 1);
    var shown := StandIn(d, refused, p);
    forall cursors: seq<Cursor> | |cursors| == |d.config| && Settled(d, refused, cursors, w) && !NoneRefused(d, refused, cursors, w)
      ensures shown.Some? && RefusedThroughout(d, refused, Holder(d, shown.value))
    {
      var t := TargetOf(d, refused, cursors, w, 0);
      assert t.Some?;
      assert shown.value in Effective(d, refused, w);
      assert Held(d, Effective(d, refused, w), Holder(d, shown.value));
    }
    if shown.Some? && RefusedThroughout(d, refused, Holder(d, shown.value)) {
      ShowsRefused(d, refused, p);
    }
  }

  lemma Showing(d: Document, refused: set<string>, p: nat, cursors: seq<Cursor>)
    requires Proper(d) && p < |d.config| == |cursors| && AllSound(d, refused, cursors)
    requires Settled(d, refused, cursors, Everywhere(p, 1)) && !NoneRefused(d, refused, cursors, Everywhere(p, 1))
    ensures MayShowRefused(d, refused, p)
  {
    hide Settled, NoneRefused, AllSound;
  }

  lemma ShowsRefused(d: Document, refused: set<string>, p: nat)
    requires Proper(d) && p < |d.config|
    requires StandIn(d, refused, p).Some? && RefusedThroughout(d, refused, Holder(d, StandIn(d, refused, p).value))
    ensures MayShowRefused(d, refused, p)
  {
    hide StandIn, Holder, Sound, BuiltFor;
    var w, h := Everywhere(p, 1), Holder(d, StandIn(d, refused, p).value);
    var i :| 0 <= i < |Entries(d, h)| && IsRefused(Entries(d, h)[i], refused);
    var cursors := seq(|d.config|, q requires 0 <= q < |d.config| => BuiltFor(d, q, if q == h then i else 0));
    forall q | 0 <= q < |cursors|
      ensures Sound(cursors[q], PlayableOf(d, refused, q), d.shuffle[q])
    {
      BuiltForIsSound(d, refused, q, if q == h then i else 0);
    }
    BuiltForIsSound(d, refused, h, i);
    var t := TargetOf(d, refused, cursors, w, 0);
    assert t == Some(Target(0, StandIn(d, refused, p).value, i));
    assert forall q :: 0 <= q < |d.config| && Held(d, Effective(d, refused, w), q) ==> q == h;
    assert AllSound(d, refused, cursors);
    assert Settled(d, refused, cursors, w);
    assert IsRefused(EntryShown(d, t.value), refused);
    assert !NoneRefused(d, refused, cursors, w);
    Showing(d, refused, p, cursors);
  }

  /** So it is in a document that loads: asked for by its name, the second
      playlist is shown, and its id puts up the first's refused scene. */
  lemma NameHidesARefusal(first: Entry, second: Entry)
    requires first.id != second.id && ItemOf(first).Some? && ItemOf(second).None? && MediaOf(first).Some? && MediaOf(second).Some?
    ensures var d := Document(Hiding(first, second), 1, None, {}, [false, false]);
      Proper(d) && MayShowRefused(d, {ItemOf(first).value}, 1)
  {
    hide MayShowRefused;
    var d, refused := Document(Hiding(first, second), 1, None, {}, [false, false]), {ItemOf(first).value};
    NameHidesAnId(first, second);
    assert Entries(d, 0) == [first] && Entries(d, 1) == [second];
    assert IsRefused(Entries(d, 0)[0], refused);
    assert RefusedThroughout(d, refused, 0);
    assert !RefusedThroughout(d, refused, 1);
    RefusedIsShownExactly(d, refused, 1);
  }

  lemma SettledShowsNoneRefused(d: Document, refused: set<string>, cursors: seq<Cursor>, w: Wanted)
    requires Proper(d) && |cursors| == |d.config| && Asks(d, w) && Settled(d, refused, cursors, w) && OwnIds(d.config)
    ensures NoneRefused(d, refused, cursors, w)
  {
    hide RefusedThroughout, Effective, StandIn, TargetOf, Settled;
    OwnIdsFindThemselves(d.config);
    forall display | 0 <= display < Displays(w)
      ensures var t := TargetOf(d, refused, cursors, w, display);
        t.Some? ==> !IsRefused(EntryShown(d, t.value), refused)
    {
      var t := TargetOf(d, refused, cursors, w, display);
      if t.Some? {
        TargetsAreEffective(d, refused, cursors, w, display);
        FoundIsNotRefused(d, refused, cursors, w, display);
      }
    }
  }

  lemma ItemIsItem(d: Document, p: nat, i: nat)
    requires p < |d.config| && i < |Entries(d, p)| && ItemOf(Entries(d, p)[i]).Some?
    ensures ItemOf(Entries(d, p)[i]).value in Items(d)
  {
  }

  /** A scene that is visited first and can play has the driver's leave. */
  ghost predicate LeaveToStart(
    d: Document, refused: set<string>, cleared: set<Question>, p: nat, visiting: seq<nat>, dynamics: bool
  )
    requires p < |d.config|
  {
    var entries := Entries(d, Holder(d, p));
    visiting != [] && visiting[0] < |entries| ==>
      var e := entries[visiting[0]];
      ItemOf(e).Some? && !CantPlay(d, refused, p, e) ==> (ItemOf(e).value, dynamics) in cleared
  }
}
