/** What a cursor keeps over every sequence of moves, what a shuffled run of
    Next plays, and what Previous undoes. */
module CursorRuns {
  import opened Common
  import opened Shuffling
  import opened Cursors

  ghost predicate Within(s: seq<nat>, n: nat) {
    forall i :: 0 <= i < |s| ==> s[i] < n
  }

  /** A cursor as the service keeps it. */
  ghost predicate Sound(c: Cursor, playable: Playable, shuffle: bool) {
    && (playable != [] ==> c.position < |c.order|)
    && NoRepeats(c.order) && Within(c.order, |playable|)
    && Within(c.history, |playable|)
    && (forall index :: index in c.forward ==> index in c.order)
    && |c.history| <= HISTORY_LIMIT && |c.forward| <= HISTORY_LIMIT
    && (!shuffle ==> c.order == Identity(|playable|))
    && (shuffle ==> forall index: nat :: CanPlay(playable, index) ==> index in c.order)
  }

  /** A move that says it moved rests on another entry, one that can play; one
      that says it didn't rests where it did. */
  ghost predicate Honest(c: Cursor, after: Cursor, moved: bool, playable: Playable) {
    if moved then Current(after) != Current(c) && Current(after).Some? && CanPlay(playable, Current(after).value)
    else Current(after) == Current(c)
  }

  predicate Other(playable: Playable, current: Option<nat>, index: nat) {
    CanPlay(playable, index) && Some(index) != current
  }

  /** Whether another entry can play. */
  ghost predicate HasAnother(playable: Playable, current: Option<nat>) {
    exists index: nat :: Other(playable, current, index)
  }

  // ---- Each move keeps the cursor sound, and says what it did ----

  lemma FoundAgain(order: seq<nat>, p: nat)
    requires NoRepeats(order) && p < |order|
    ensures Find(order, order[p]) == Some(p)
  {
    var r := Find(order, order[p]);
    assert order[p] in order;
  }

  lemma PushWithin(values: seq<nat>, value: nat, n: nat)
    requires Within(values, n) && value < n && |values| <= HISTORY_LIMIT
    ensures Within(PushBounded(values, value), n) && |PushBounded(values, value)| <= HISTORY_LIMIT
  {
  }

  lemma SoundMoveTo(c: Cursor, playable: Playable, shuffle: bool, position: nat, forward: seq<nat>)
    requires Sound(c, playable, shuffle) && c.position < |c.order| && position < |c.order|
    requires |forward| <= |c.forward| && forall index :: index in forward ==> index in c.forward
    ensures Sound(MovedTo(c, c.order, position, forward), playable, shuffle)
  {
    PushWithin(c.history, c.order[c.position], |playable|);
  }

  lemma DealIsSound(c: Cursor, playable: Playable, deal: seq<nat>)
    requires Sound(c, playable, true) && c.position < |c.order| && IsDeal(deal, playable)
    ensures var (after, moved) := Deal(c, deal);
            && Sound(after, playable, true)
            && Honest(c, after, moved, playable)
            && (moved <==> HasAnother(playable, Current(c)))
            && (moved ==> after.position == 0 && after.forward == [] && IsDeal(after.order, playable))
  {
    var current := c.order[c.position];
    var next := NotAgain(deal, current);
    NotAgainIsDeal(deal, current, playable);
    if next != [] {
      assert next[0] in next;
      if next[0] != current {
        PushWithin(c.history, current, |playable|);
        forall i | 0 <= i < |next|
          ensures next[i] < |playable|
        {
          assert next[i] in next;
        }
        assert Other(playable, Some(current), next[0]);
      } else {
        NothingElse(deal, playable, current);
      }
    } else {
      NothingElse(deal, playable, current);
    }
  }

  /** One entry at most was dealt, and it is the current one. */
  lemma NothingElse(deal: seq<nat>, playable: Playable, current: nat)
    requires IsDeal(deal, playable)
    requires NotAgain(deal, current) == [] || NotAgain(deal, current)[0] == current
    ensures !HasAnother(playable, Some(current))
  {
    NotAgainIsDeal(deal, current, playable);
    forall index: nat | CanPlay(playable, index)
      ensures index == current
    {
      assert index in deal;
    }
  }

  lemma NotAgainIsDeal(deal: seq<nat>, current: nat, playable: Playable)
    requires IsDeal(deal, playable)
    ensures IsDeal(NotAgain(deal, current), playable)
    ensures |deal| > 1 ==> NotAgain(deal, current)[0] != current
  {
    SwappedIsAPermutation(deal, 0, 1);
  }

  lemma SwappedIsAPermutation(s: seq<nat>, i: nat, j: nat)
    ensures i < |s| && j < |s| ==> forall x: nat :: x in Swapped(s, i, j) <==> x in s
    ensures i < |s| && j < |s| && NoRepeats(s) ==> NoRepeats(Swapped(s, i, j))
  {
    if i < |s| && j < |s| {
      var r := Swapped(s, i, j);
      forall x: nat
        ensures x in r <==> x in s
      {
        assert r[i] == s[j] && r[j] == s[i];
        assert forall k :: 0 <= k < |s| && k != i && k != j ==> r[k] == s[k];
        if x in s {
          var k :| 0 <= k < |s| && s[k] == x;
          assert r[if k == i then j else if k == j then i else k] == x;
        }
        if x in r {
          var k :| 0 <= k < |s| && r[k] == x;
          assert s[if k == i then j else if k == j then i else k] == x;
        }
      }
    }
  }

  lemma ForwardIsSound(c: Cursor, playable: Playable, shuffle: bool, deal: seq<nat>)
    requires Sound(c, playable, shuffle) && IsDeal(deal, playable)
    ensures var (after, moved) := Forward(c, playable, shuffle, deal);
            && Sound(after, playable, shuffle)
            && Honest(c, after, moved, playable)
  {
    hide Onward;
    if c.position < |c.order| {
      var unwound := Newest(c.forward, playable, None);
      if unwound.Some? {
        var index := c.forward[unwound.value];
        assert index in c.forward;
        SoundMoveTo(c, playable, shuffle, Find(c.order, index).value, c.forward[..unwound.value]);
      } else {
        OnwardIsSound(c.(forward := []), playable, shuffle, deal);
      }
    }
  }

  /** With nothing unwound that can play, Next moves exactly when another
      entry can play. */
  lemma OnwardIsSound(c: Cursor, playable: Playable, shuffle: bool, deal: seq<nat>)
    requires Sound(c, playable, shuffle) && c.position < |c.order| && IsDeal(deal, playable)
    ensures var (after, moved) := Onward(c, playable, shuffle, deal);
            && Sound(after, playable, shuffle)
            && Honest(c, after, moved, playable)
            && (moved <==> HasAnother(playable, Current(c)))
  {
    hide Deal;
    var current := c.order[c.position];
    if shuffle {
      var next := NextPlayable(c.order, c.position + 1, playable);
      if next.Some? {
        SoundMoveTo(c, playable, shuffle, next.value, []);
        assert Other(playable, Some(current), c.order[next.value]);
      } else {
        DealIsSound(c, playable, deal);
      }
    } else {
      var next := NextAround(c.order, c.position, playable, 1);
      if next.Some? {
        var place := (c.position + next.value) % |c.order|;
        SoundMoveTo(c, playable, shuffle, place, []);
        assert Other(playable, Some(current), c.order[place]);
      } else {
        forall index: nat | CanPlay(playable, index)
          ensures index == current
        {
          RingComesTo(|c.order|, c.position, index);
          var offset := if index > c.position then index - c.position else index + |c.order| - c.position;
          assert !Another(c.order, c.position, playable, offset);
        }
      }
    }
  }

  lemma RingComesTo(n: nat, position: nat, index: nat)
    requires position < n && index < n
    ensures var offset := if index > position then index - position else index + n - position;
            1 <= offset <= n && (position + offset) % n == index
  {
  }

  lemma BackwardIsSound(c: Cursor, playable: Playable, shuffle: bool)
    requires Sound(c, playable, shuffle)
    ensures var (after, moved) := Backward(c, playable);
            && Sound(after, playable, shuffle)
            && Honest(c, after, moved, playable)
            && (moved <==> exists i :: 0 <= i < |c.history| && Other(playable, Current(c), c.history[i]))
  {
    if c.position < |c.order| {
      var current := c.order[c.position];
      var last := Newest(c.history, playable, Some(current));
      if last.Some? {
        var previous := c.history[last.value];
        assert Other(playable, Current(c), previous);
        var (after, moved) := Backward(c, playable);
        PushWithin(c.forward, current, |playable|) by {
          forall i | 0 <= i < |c.forward|
            ensures c.forward[i] < |playable|
          {
            assert c.forward[i] in c.forward;
          }
        }
        assert previous in after.order;
        IdentityHasAll(|playable|);
        forall index | index in after.forward
          ensures index in after.order
        {
          assert index == current || index in c.forward;
          assert index in c.order;
        }
      } else {
        assert forall i :: 0 <= i < |c.history| ==> !Other(playable, Current(c), c.history[i]);
      }
    }
  }

  lemma RandomIsSound(c: Cursor, playable: Playable, shuffle: bool, deal: seq<nat>, draw: nat)
    requires Sound(c, playable, shuffle) && IsDeal(deal, playable)
    ensures var (after, moved) := AtRandom(c, playable, shuffle, deal, draw);
            && Sound(after, playable, shuffle)
            && Honest(c, after, moved, playable)
            && (moved <==> HasAnother(playable, Current(c)))
  {
    hide Deal, Swapped, Reduced, Sound, Without, Playables, Remaining, PushBounded, Find;
    SoundRests(c, playable, shuffle);
    if c.position < |c.order| {
      var current := c.order[c.position];
      if shuffle {
        var remaining := Remaining(c.order, c.position + 1, |c.order|, playable);
        if remaining == [] {
          DealIsSound(c, playable, deal);
        } else {
          var chosen := remaining[Reduced(draw, |remaining|)];
          assert chosen in remaining;
          RandomAhead(c, playable, chosen);
        }
      } else {
        var candidates := Without(Playables(playable, |playable|), current);
        if candidates != [] {
          var chosen := candidates[Reduced(draw, |candidates|)];
          assert chosen in candidates;
          InOrder(c, playable, chosen);
          SoundMoveTo(c, playable, shuffle, Find(c.order, chosen).value, []);
          assert Other(playable, Some(current), chosen);
        } else {
          forall index: nat | CanPlay(playable, index)
            ensures index == current
          {
            assert index in candidates <==> index != current;
          }
        }
      }
    }
  }

  lemma SoundRests(c: Cursor, playable: Playable, shuffle: bool)
    requires Sound(c, playable, shuffle)
    ensures c.position < |c.order| || forall index: nat :: !CanPlay(playable, index)
  {
  }

  lemma InOrder(c: Cursor, playable: Playable, index: nat)
    requires Sound(c, playable, false) && index < |playable|
    ensures index in c.order
  {
    IdentityHasAll(|playable|);
  }

  lemma RandomAhead(c: Cursor, playable: Playable, chosen: nat)
    requires Sound(c, playable, true) && c.position < chosen < |c.order| && CanPlay(playable, c.order[chosen])
    ensures var after := MovedTo(c, Swapped(c.order, c.position + 1, chosen), c.position + 1, []);
            Sound(after, playable, true) && Honest(c, after, true, playable) && HasAnother(playable, Current(c))
  {
    var next := c.position + 1;
    var order := Swapped(c.order, next, chosen);
    SwappedIsAPermutation(c.order, next, chosen);
    PushWithin(c.history, c.order[c.position], |playable|);
    forall i | 0 <= i < |order|
      ensures order[i] < |playable|
    {
      assert order[i] in order && order[i] in c.order;
    }
    assert order[next] == c.order[chosen];
    assert Other(playable, Current(c), c.order[chosen]);
  }

  lemma ResetIsSound(c: Cursor, playable: Playable, shuffle: bool)
    requires Sound(c, playable, shuffle)
    ensures var (after, moved) := Reset(c, playable);
            && Sound(after, playable, shuffle)
            && (moved <==> exists index: nat :: CanPlay(playable, index))
            && (moved ==> Current(after).Some? && CanPlay(playable, Current(after).value) && after.history == after.forward == [])
            && (!moved ==> after == c)
  {
    var first := NextPlayable(c.order, 0, playable);
    if first.None? {
      IdentityHasAll(|playable|);
      forall index: nat
        ensures !CanPlay(playable, index)
      {
        assert CanPlay(playable, index) ==> index in c.order;
        assert index in c.order ==> !CanPlay(playable, index);
      }
    }
  }

  lemma BuiltIsSound(playable: Playable, current: nat, shuffle: bool, rest: seq<nat>)
    requires current < |playable| || |playable| == current == 0
    requires IsRest(rest, |playable|, current)
    ensures Sound(Built(|playable|, current, shuffle, rest), playable, shuffle)
    ensures playable != [] ==> Current(Built(|playable|, current, shuffle, rest)) == Some(current)
  {
    IdentityHasAll(|playable|);
    if shuffle && playable != [] {
      var order := [current] + rest;
      assert current !in rest;
      forall i | 0 <= i < |order|
        ensures order[i] < |playable|
      {
        if i > 0 {
          assert order[i] == rest[i - 1] && rest[i - 1] in rest;
        }
      }
    }
  }

  // ---- Every sequence of moves ----

  datatype Op =
    | Next(deal: seq<nat>)
    | Previous
    | Random(deal: seq<nat>, draw: nat)
    | ToStart
      /** Entries turn taboo or are refused: fewer can play. */
    | Lose(playable: Playable)

  datatype Session = Session(cursor: Cursor, playable: Playable)

  function Perform(s: Session, shuffle: bool, op: Op): Session {
    match op
    case Next(deal) => s.(cursor := Forward(s.cursor, s.playable, shuffle, deal).0)
    case Previous => s.(cursor := Backward(s.cursor, s.playable).0)
    case Random(deal, draw) => s.(cursor := AtRandom(s.cursor, s.playable, shuffle, deal, draw).0)
    case ToStart => s.(cursor := Reset(s.cursor, s.playable).0)
    case Lose(playable) => s.(playable := playable)
  }

  ghost predicate Fair(op: Op, playable: Playable) {
    match op
    case Next(deal) => IsDeal(deal, playable)
    case Random(deal, _) => IsDeal(deal, playable)
    case Lose(fewer) => |fewer| == |playable| && forall i: nat :: CanPlay(fewer, i) ==> CanPlay(playable, i)
    case _ => true
  }

  ghost predicate FairRun(s: Session, shuffle: bool, ops: seq<Op>)
    decreases |ops|
  {
    ops != [] ==> Fair(ops[0], s.playable) && FairRun(Perform(s, shuffle, ops[0]), shuffle, ops[1..])
  }

  function Run(s: Session, shuffle: bool, ops: seq<Op>): Session
    decreases |ops|
  {
    if ops == [] then s else Run(Perform(s, shuffle, ops[0]), shuffle, ops[1..])
  }

  lemma {:induction false} EveryRunIsSound(s: Session, shuffle: bool, ops: seq<Op>)
    requires Sound(s.cursor, s.playable, shuffle) && FairRun(s, shuffle, ops)
    ensures var r := Run(s, shuffle, ops);
            Sound(r.cursor, r.playable, shuffle) && |r.playable| == |s.playable|
    decreases |ops|
  {
    hide Forward, Backward, AtRandom, Reset;
    if ops != [] {
      match ops[0] {
        case Next(deal) => ForwardIsSound(s.cursor, s.playable, shuffle, deal);
        case Previous => BackwardIsSound(s.cursor, s.playable, shuffle);
        case Random(deal, draw) => RandomIsSound(s.cursor, s.playable, shuffle, deal, draw);
        case ToStart => ResetIsSound(s.cursor, s.playable, shuffle);
        case Lose(_) =>
      }
      EveryRunIsSound(Perform(s, shuffle, ops[0]), shuffle, ops[1..]);
    }
  }
}
