/** Where each move of a cursor goes, by entries alone. */
module CursorMoves {
  import opened Common
  import opened Shuffling
  import opened Cursors
  import opened CursorRuns

  // ---- Next ----

  /** How many entries on another is, around a playlist of `n`; itself is a whole
      round on. */
  function Ahead(from: nat, index: nat, n: nat): int {
    if index > from then index - from else index - from + n
  }

  /** Of the entries that can play, the first to come after `from`. */
  ghost predicate Follows(playable: Playable, from: nat, index: nat) {
    && CanPlay(playable, index)
    && forall other: nat :: CanPlay(playable, other) ==> Ahead(from, index, |playable|) <= Ahead(from, other, |playable|)
  }

  /** What a move to an entry leaves behind. */
  ghost predicate LeftBehind(c: Cursor, after: Cursor, forward: seq<nat>) {
    && after.forward == forward
    && (Current(c).Some? ==> after.history == PushBounded(c.history, Current(c).value))
  }

  ghost predicate NothingUnwound(c: Cursor, playable: Playable) {
    forall index :: index in c.forward ==> !CanPlay(playable, index)
  }

  /** Unshuffled, with nothing to come back to, Next goes to the first entry
      after the current one, around the playlist, that can play. */
  lemma NextFollows(c: Cursor, playable: Playable, deal: seq<nat>)
    requires Sound(c, playable, false) && Current(c).Some? && NothingUnwound(c, playable)
    ensures var (after, moved) := Forward(c, playable, false, deal);
      if HasAnother(playable, Current(c))
      then moved && Current(after).Some? && Follows(playable, Current(c).value, Current(after).value) && LeftBehind(c, after, [])
      else !moved && after == c.(forward := [])
  {
    hide PushBounded, Find;
    assert Newest(c.forward, playable, None) == None;
    var n, at := |playable|, c.position;
    assert c.order == Identity(n) && Current(c) == Some(at);
    var next := NextAround(c.order, at, playable, 1);
    forall index: nat | CanPlay(playable, index) && index != at
      ensures next.Some? && next.value <= Ahead(at, index, n)
    {
      RingComesTo(n, at, index);
      assert Another(c.order, at, playable, Ahead(at, index, n));
    }
    if next.Some? {
      var place := (at + next.value) % n;
      assert CanPlay(playable, place) && place != at;
      assert Other(playable, Current(c), place);
      AheadIs(at, next.value, n);
    } else {
      assert forall index: nat :: !Other(playable, Current(c), index);
    }
  }

  lemma AheadIs(from: nat, offset: nat, n: nat)
    requires from < n && 1 <= offset <= n
    ensures Ahead(from, (from + offset) % n, n) == offset
  {
    if from + offset >= n {
      assert (from + offset) % n == from + offset - n;
    }
  }

  /** Next goes to the newest entry Previous unwound that can play, and gives up
      newer ones. */
  lemma NextUnwinds(c: Cursor, playable: Playable, shuffle: bool, deal: seq<nat>, i: nat)
    requires Sound(c, playable, shuffle) && Current(c).Some?
    requires i < |c.forward| && CanPlay(playable, c.forward[i])
    requires forall j :: i < j < |c.forward| ==> !CanPlay(playable, c.forward[j])
    ensures var (after, moved) := Forward(c, playable, shuffle, deal);
      && Current(after) == Some(c.forward[i]) && after.order == c.order
      && LeftBehind(c, after, c.forward[..i])
      && (moved <==> Current(after) != Current(c))
  {
    assert Newest(c.forward, playable, None) == Some(i);
    assert c.forward[i] in c.forward;
  }

  /** Shuffled, with nothing left of the order that can play, Next deals anew: the
      deal as dealt, but that the entry just played changes places with the
      second if it would come first. */
  lemma NextDeals(c: Cursor, playable: Playable, deal: seq<nat>)
    requires Current(c).Some? && NothingUnwound(c, playable) && IsDeal(deal, playable) && |deal| > 1
    requires forall p :: c.position < p < |c.order| ==> !CanPlay(playable, c.order[p])
    ensures var (after, moved) := Forward(c, playable, true, deal);
      && moved && after.position == 0 && LeftBehind(c, after, [])
      && after.order == if Some(deal[0]) == Current(c) then [deal[1], deal[0]] + deal[2..] else deal
  {
    assert Newest(c.forward, playable, None) == None;
    assert NextPlayable(c.order, c.position + 1, playable) == None;
    assert deal[0] != deal[1];
  }

  /** What is remembered is what was left last, up to the limit. */
  lemma NewestAreKept(values: seq<nat>, value: nat)
    requires |values| <= HISTORY_LIMIT
    ensures var all := values + [value];
      PushBounded(values, value) == all[if |all| > HISTORY_LIMIT then |all| - HISTORY_LIMIT else 0..]
  {
  }

  // ---- Previous ----

  /** Previous goes to the newest of the history that can play and isn't the
      current entry, forgetting newer ones; the current entry can be come back
      to. With none, the history is forgotten. */
  lemma PreviousGoesBack(c: Cursor, playable: Playable, shuffle: bool)
    requires Sound(c, playable, shuffle) && Current(c).Some?
    ensures var (after, moved) := Backward(c, playable);
      && (forall i: nat | i < |c.history| && Other(playable, Current(c), c.history[i])
            && (forall j :: i < j < |c.history| ==> !Other(playable, Current(c), c.history[j])) ::
            && moved && Current(after) == Some(c.history[i])
            && after.history == c.history[..i] && after.forward == PushBounded(c.forward, Current(c).value)
            && after.order == if c.history[i] in c.order then c.order else c.order + [c.history[i]])
      && ((forall i :: 0 <= i < |c.history| ==> !Other(playable, Current(c), c.history[i])) ==>
            !moved && after == c.(history := []))
  {
    var last := Newest(c.history, playable, Current(c));
    forall i: nat | i < |c.history| && Other(playable, Current(c), c.history[i])
      && (forall j :: i < j < |c.history| ==> !Other(playable, Current(c), c.history[j]))
      ensures last == Some(i)
    {
      if last.Some? && last.value > i {
        assert Other(playable, Current(c), c.history[last.value]);
      }
    }
    if last.Some? {
      assert Other(playable, Current(c), c.history[last.value]);
    }
  }

  // ---- Random ----

  /** What a random move unshuffled may choose. */
  function Choices(playable: Playable, current: nat): (r: set<nat>)
    ensures forall i: nat :: i in r <==> Other(playable, Some(current), i)
  {
    set i: nat | i < |playable| && Other(playable, Some(current), i)
  }

  ghost predicate Rising(s: seq<nat>) {
    forall i, j :: 0 <= i < j < |s| ==> s[i] < s[j]
  }

  lemma {:induction false} WithoutRises(s: seq<nat>, x: nat)
    requires Rising(s)
    ensures Rising(Without(s, x))
  {
    if s != [] {
      WithoutRises(s[1..], x);
      var rest := Without(s[1..], x);
      assert forall i :: 0 <= i < |rest| ==> rest[i] in rest && rest[i] in s[1..];
    }
  }

  lemma {:induction false} RemainingRises(order: seq<nat>, from: nat, end: nat, playable: Playable)
    requires end <= |order|
    ensures Rising(Remaining(order, from, end, playable))
    decreases end
  {
    if from < end {
      RemainingRises(order, from, end - 1, playable);
      var rest := Remaining(order, from, end - 1, playable);
      assert forall i :: 0 <= i < |rest| ==> rest[i] in rest;
    }
  }

  lemma RisingOnce(s: seq<nat>, members: set<nat>)
    requires Rising(s) && forall i: nat :: i in s <==> i in members
    ensures |s| == |members|
  {
    SizeOfNoRepeats(s);
    assert SetOf(s) == members;
  }

  /** How many of some are before one. */
  function Rank(members: set<nat>, i: nat): nat {
    |set q: nat | q in members && q < i|
  }

  /** Unshuffled, a draw chooses among all others that can play, counted in their
      own order; larger draws wrap around. */
  lemma RandomIsFair(c: Cursor, playable: Playable, deal: seq<nat>, draw: nat)
    requires Sound(c, playable, false) && Current(c).Some? && HasAnother(playable, Current(c))
    ensures var choices := Choices(playable, Current(c).value);
      var (after, moved) := AtRandom(c, playable, false, deal, draw);
      && choices != {} && moved && after.order == c.order && LeftBehind(c, after, [])
      && Current(after).Some? && Current(after).value in choices && Rank(choices, Current(after).value) == draw % |choices|
  {
    hide Sound, Playables, Without, PushBounded, Rank, Find, Remaining;
    var current := Current(c).value;
    var choices, all := Choices(playable, current), Playables(playable, |playable|);
    var candidates := Without(all, current);
    WithoutRises(all, current);
    RisingOnce(candidates, choices);
    var i: nat :| Other(playable, Current(c), i);
    assert i in choices && i in candidates;
    var k := Reduced(draw, |candidates|);
    var chosen := candidates[k];
    assert chosen in candidates;
    PlaceInRising(candidates, choices, k);
    PlaceIsIndex(c, playable, chosen);
  }

  lemma PlaceIsIndex(c: Cursor, playable: Playable, index: nat)
    requires Sound(c, playable, false) && index < |playable|
    ensures index < |c.order| && c.order[index] == index && Find(c.order, index) == Some(index)
  {
    assert c.order[index] == index;
    FoundAgain(c.order, index);
  }

  /** Shuffled, a draw chooses among what is left of the order that can play,
      counted in that order; larger draws wrap around. The entry chosen changes
      places with the next of the order, so what was played stays before. */
  lemma RandomFromTheRest(c: Cursor, playable: Playable, deal: seq<nat>, draw: nat, left: set<nat>) returns (p: nat)
    requires c.position < |c.order| && left != {}
    requires forall p: nat :: p in left <==> c.position < p < |c.order| && CanPlay(playable, c.order[p])
    ensures p in left && Rank(left, p) == draw % |left|
    ensures var (after, moved) := AtRandom(c, playable, true, deal, draw);
      && moved && after.position == c.position + 1 && LeftBehind(c, after, [])
      && after.order == c.order[c.position + 1 := c.order[p]][p := c.order[c.position + 1]]
  {
    hide Remaining, PushBounded, Rank, Deal;
    var remaining := Remaining(c.order, c.position + 1, |c.order|, playable);
    RemainingRises(c.order, c.position + 1, |c.order|, playable);
    RisingOnce(remaining, left);
    var k := Reduced(draw, |remaining|);
    p := remaining[k];
    assert p in remaining;
    PlaceInRising(remaining, left, k);
  }

  lemma PlaceInRising(s: seq<nat>, members: set<nat>, k: nat)
    requires Rising(s) && k < |s| && forall i: nat :: i in s <==> i in members
    ensures Rank(members, s[k]) == k
  {
    var below := set q: nat | q in members && q < s[k];
    forall i: nat
      ensures i in s[..k] <==> i in below
    {
      if i in below {
        assert i in s;
        var j :| 0 <= j < |s| && s[j] == i;
        assert s[..k][j] == i;
      }
      if i in s[..k] {
        assert i in s;
      }
    }
    RisingOnce(s[..k], below);
  }

  // ---- Reset ----

  /** A reset goes to the first entry of the order that can play. */
  lemma ResetTakesTheFirst(c: Cursor, playable: Playable, shuffle: bool, index: nat)
    requires Sound(c, playable, shuffle) && CanPlay(playable, index)
    ensures var (after, moved) := Reset(c, playable);
      && moved && after.order == c.order && after.history == [] && after.forward == []
      && after.position < |c.order| && CanPlay(playable, c.order[after.position])
      && (forall p :: 0 <= p < after.position ==> !CanPlay(playable, c.order[p]))
      && (!shuffle ==> Current(after).value <= index)
  {
    ResetIsSound(c, playable, shuffle);
    if !shuffle {
      assert c.order[index] == index;
    }
  }

  // ---- Rounds ----

  /** The cursor after some presses of Next, unshuffled. */
  function Presses(c: Cursor, playable: Playable, n: nat): Cursor {
    if n == 0 then c else Forward(Presses(c, playable, n - 1), playable, false, []).0
  }

  /** `k` turns on from place `r` of `n`, around. */
  function Turned(r: nat, k: nat, n: nat): (q: nat)
    requires r < n
    ensures q < n
  {
    if k == 0 then r else Next(Turned(r, k - 1, n), n)
  }

  function Next(r: nat, n: nat): nat {
    if r + 1 < n then r + 1 else 0
  }

  lemma {:induction false} TurnsAround(r: nat, k: nat, n: nat)
    requires r < n && k <= n
    ensures Turned(r, k, n) == if r + k < n then r + k else r + k - n
  {
    if k > 0 {
      TurnsAround(r, k - 1, n);
    }
  }

  lemma NextPlayableFollows(playable: Playable, r: nat)
    requires r < |Playables(playable, |playable|)|
    ensures var all := Playables(playable, |playable|); Follows(playable, all[r], all[Next(r, |all|)])
  {
    var all := Playables(playable, |playable|);
    var from, next := all[r], all[Next(r, |all|)];
    assert next in all && from in all;
    forall other: nat | CanPlay(playable, other)
      ensures Ahead(from, next, |playable|) <= Ahead(from, other, |playable|)
    {
      assert other in all;
      var j :| 0 <= j < |all| && all[j] == other;
    }
  }

  lemma OneFollows(playable: Playable, from: nat, a: nat, b: nat)
    requires from < |playable| && Follows(playable, from, a) && Follows(playable, from, b)
    ensures a == b
  {
  }

  /** From an entry that can play, k presses of Next, unshuffled, come to the k-th
      after it of those that can play, in their own order and around; as many
      presses as there are play each of them once and end where they began. */
  lemma {:induction false} EveryRoundPlaysEachOnce(c: Cursor, playable: Playable, r: nat, k: nat)
    requires Sound(c, playable, false) && c.forward == []
    requires r < |Playables(playable, |playable|)| && Current(c) == Some(Playables(playable, |playable|)[r])
    ensures var after, all := Presses(c, playable, k), Playables(playable, |playable|);
      && Sound(after, playable, false) && after.forward == []
      && Current(after) == Some(all[Turned(r, k, |all|)])
      && (k <= |all| ==> Current(after) == Some(all[if r + k < |all| then r + k else r + k - |all|]))
  {
    hide Forward, Sound, Playables;
    var all := Playables(playable, |playable|);
    if k > 0 {
      EveryRoundPlaysEachOnce(c, playable, r, k - 1);
      OnePress(Presses(c, playable, k - 1), playable, Turned(r, k - 1, |all|));
    }
    if k <= |all| {
      TurnsAround(r, k, |all|);
    }
  }

  lemma OnePress(c: Cursor, playable: Playable, r: nat)
    requires Sound(c, playable, false) && c.forward == []
    requires r < |Playables(playable, |playable|)| && Current(c) == Some(Playables(playable, |playable|)[r])
    ensures var after, all := Forward(c, playable, false, []).0, Playables(playable, |playable|);
      Sound(after, playable, false) && after.forward == [] && Current(after) == Some(all[Next(r, |all|)])
  {
    hide Forward, Sound, Follows;
    var all := Playables(playable, |playable|);
    var from, next := all[r], all[Next(r, |all|)];
    assert next in all;
    PressIsSound(c, playable);
    NextFollows(c, playable, []);
    NextPlayableFollows(playable, r);
    var after := Forward(c, playable, false, []).0;
    if HasAnother(playable, Current(c)) {
      RestsBelow(c, playable);
      OneFollows(playable, from, next, Current(after).value);
    } else {
      assert !Other(playable, Current(c), next);
    }
  }

  lemma RestsBelow(c: Cursor, playable: Playable)
    requires Sound(c, playable, false) && Current(c).Some?
    ensures Current(c).value < |playable|
  {
  }

  lemma PressIsSound(c: Cursor, playable: Playable)
    requires Sound(c, playable, false) && c.forward == []
    ensures Sound(Forward(c, playable, false, []).0, playable, false)
  {
    hide Sound;
    var deal := Playables(playable, |playable|);
    ForwardIsSound(c, playable, false, deal);
    assert Forward(c, playable, false, deal) == Forward(c, playable, false, []);
  }
}
